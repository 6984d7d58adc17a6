/** The database probe: three advertised functions answered from two
    static inventory tables, rendered as newline-terminated CSV text. */
module DatabaseProbe {
  import opened ProbeTypes
  import opened Csv
  import opened Seqs

  /** The filter value that matches every row. */
  const All := "all"

  const ListServersName := "database_list_servers"
  const ListDatabasesName := "database_list_databases"
  const HealthCheckName := "database_health_check"

  /** The probe's listing capability: a fixed sequence of three definitions. */
  function FunctionList(): (r: seq<FunctionDef>)
    ensures |r| == 3
    ensures r[0].name == ListServersName
    ensures r[1].name == ListDatabasesName
    ensures r[2].name == HealthCheckName
    ensures forall i, j :: 0 <= i < j < |r| ==> r[i].name != r[j].name
  {
    [ FunctionDef(ListServersName, "Get a list of all the known database servers",
                  Schema(["db_type"], [])),
      FunctionDef(ListDatabasesName, "Get a list of all the known databases",
                  Schema(["db_type", "server"], [])),
      FunctionDef(HealthCheckName, "Get the health state of the database",
                  Schema(["db_name"], ["db_name"])) ]
  }

  /** A filter argument accepts a value when it is the wildcard or equal to it. */
  predicate Matches(filter: string, value: string) {
    filter == All || filter == value
  }

  // ---------------------------------------------------------------- servers

  datatype Server = Server(name: string, dbType: string, hostname: string)

  /** The two DNS domains of the server hostnames. */
  const CoreDomain := ".core.lennoxconsulting.com.au"
  const LabDomain := ".lab.lennoxconsulting.com.au"

  const Servers: seq<Server> := [
    Server("sr-dbs01", "mysql", "sr-dbs01" + CoreDomain),
    Server("sr-dbs02", "mongodb", "sr-dbs02" + CoreDomain),
    Server("sr-dbs03", "postgresql", "sr-dbs03" + CoreDomain),
    Server("sr-dbs04", "mysql", "sr-dbs04" + LabDomain),
    Server("sr-dbs04", "postgresql", "sr-dbs04" + LabDomain)
  ]

  const ServerHeader := "db_server,db_type,hostname"

  function ServerRow(s: Server): string {
    s.name + "," + s.dbType + "," + s.hostname
  }

  /** The servers of `ss` whose type the filter `t` accepts, in order. */
  function SelectServers(ss: seq<Server>, t: string): (r: seq<Server>)
    ensures forall s :: s in r <==> s in ss && Matches(t, s.dbType)
    ensures IsSubsequence(r, ss)
  {
    if ss == [] then []
    else
      var rest := SelectServers(ss[1..], t);
      assert IsSubsequence(rest, ss) by {
        if rest != [] { assert IsSubsequence(rest, ss[1..]); }
      }
      if Matches(t, ss[0].dbType) then
        assert ([ss[0]] + rest)[1..] == rest;
        [ss[0]] + rest
      else rest
  }

  /** The filter keeps every accepted server as many times as the table
      holds it, and no other server. */
  lemma {:induction false} SelectServersCounts(ss: seq<Server>, t: string)
    ensures forall s :: multiset(SelectServers(ss, t))[s] ==
              if Matches(t, s.dbType) then multiset(ss)[s] else 0
    decreases |ss|
  {
    if ss != [] {
      SelectServersCounts(ss[1..], t);
      assert ss == [ss[0]] + ss[1..];
      assert multiset(ss) == multiset([ss[0]]) + multiset(ss[1..]);
    }
  }

  lemma ServerRowsHaveNoNewline()
    ensures forall s :: s in Servers ==> NoNewline(ServerRow(s))
  {
    assert NoNewline(CoreDomain) && NoNewline(LabDomain);
  }

  /** `list_servers`: the header, then one row per accepted server. */
  function ListServers(t: string): (r: string)
    ensures "db_server,db_type,hostname\n" <= r
    ensures |r| > 0 && r[|r| - 1] == '\n'
    ensures SplitLines(r) == [ServerHeader] + MapSeq(SelectServers(Servers, t), ServerRow)
  {
    var rows := MapSeq(SelectServers(Servers, t), ServerRow);
    ServerRowsHaveNoNewline();
    SplitLinesOfLines([ServerHeader] + rows);
    Lines([ServerHeader] + rows)
  }

  /** With the wildcard every server is listed, in table order. */
  lemma {:induction false} SelectAllServers(ss: seq<Server>)
    ensures SelectServers(ss, All) == ss
    decreases |ss|
  {
    if ss != [] {
      SelectAllServers(ss[1..]);
    }
  }

  /** `list_servers` returns the bare header exactly when the filter is
      neither the wildcard nor the type of any server. */
  lemma ListServersHeaderOnly(t: string)
    ensures ListServers(t) == ServerHeader + "\n" <==>
              t != All && forall s :: s in Servers ==> s.dbType != t
  {
    var sel := SelectServers(Servers, t);
    var rows := MapSeq(sel, ServerRow);
    assert ([ServerHeader] + rows)[1..] == rows;
    if sel == [] {
      assert rows == [];
    } else {
      assert sel[0] in sel;
      assert Lines(rows) != "";
    }
  }

  /** Filtering by one type lists that type's servers in table order. */
  lemma MysqlServers()
    ensures SelectServers(Servers, "mysql") == [Servers[0], Servers[3]]
  {
    var t := "mysql";
    assert Servers[4..][1..] == [];
    assert SelectServers(Servers[4..], t) == [];
    assert Servers[3..][1..] == Servers[4..];
    assert SelectServers(Servers[3..], t) == [Servers[3]];
    assert Servers[2..][1..] == Servers[3..];
    assert SelectServers(Servers[2..], t) == [Servers[3]];
    assert Servers[1..][1..] == Servers[2..];
    assert SelectServers(Servers[1..], t) == [Servers[3]];
  }

  // -------------------------------------------------------------- databases

  datatype Database = Database(name: string, dbType: string, server: string)

  const Databases: seq<Database> := [
    Database("netbox", "postgresql", "sr-dbs03"),
    Database("netbox-test", "postgresql", "sr-dbs04"),
    Database("netbox-dev", "postgresql", "sr-dbs04"),
    Database("taiga", "mysql", "sr-dbs01"),
    Database("homeassistant", "mysql", "sr-dbs01"),
    Database("wordpress", "mysql", "sr-dbs01")
  ]

  const DatabaseHeader := "db_name,db_type,db_server"

  function DatabaseRow(d: Database): string {
    d.name + "," + d.dbType + "," + d.server
  }

  /** The databases of `ds` accepted by both the type and the server filter, in order. */
  function SelectDatabases(ds: seq<Database>, t: string, server: string): (r: seq<Database>)
    ensures forall d :: d in r <==> d in ds && Matches(t, d.dbType) && Matches(server, d.server)
    ensures IsSubsequence(r, ds)
  {
    if ds == [] then []
    else
      var rest := SelectDatabases(ds[1..], t, server);
      assert IsSubsequence(rest, ds) by {
        if rest != [] { assert IsSubsequence(rest, ds[1..]); }
      }
      if Matches(t, ds[0].dbType) && Matches(server, ds[0].server) then
        assert ([ds[0]] + rest)[1..] == rest;
        [ds[0]] + rest
      else rest
  }

  /** The filters keep every accepted database as many times as the table
      holds it, and no other database. */
  lemma {:induction false} SelectDatabasesCounts(ds: seq<Database>, t: string, server: string)
    ensures forall d :: multiset(SelectDatabases(ds, t, server))[d] ==
              if Matches(t, d.dbType) && Matches(server, d.server) then multiset(ds)[d] else 0
    decreases |ds|
  {
    if ds != [] {
      SelectDatabasesCounts(ds[1..], t, server);
      assert ds == [ds[0]] + ds[1..];
      assert multiset(ds) == multiset([ds[0]]) + multiset(ds[1..]);
    }
  }

  lemma DatabaseRowsHaveNoNewline()
    ensures forall d :: d in Databases ==> NoNewline(DatabaseRow(d))
  {
    assert NoNewline(DatabaseRow(Databases[0]));
    assert NoNewline(DatabaseRow(Databases[1]));
    assert NoNewline(DatabaseRow(Databases[2]));
    assert NoNewline(DatabaseRow(Databases[3]));
    assert NoNewline(DatabaseRow(Databases[4]));
    assert NoNewline(DatabaseRow(Databases[5]));
  }

  /** `list_database`: the header, then one row per accepted database. */
  function ListDatabase(t: string, server: string): (r: string)
    ensures "db_name,db_type,db_server\n" <= r
    ensures |r| > 0 && r[|r| - 1] == '\n'
    ensures SplitLines(r) == [DatabaseHeader] + MapSeq(SelectDatabases(Databases, t, server), DatabaseRow)
  {
    var rows := MapSeq(SelectDatabases(Databases, t, server), DatabaseRow);
    DatabaseRowsHaveNoNewline();
    SplitLinesOfLines([DatabaseHeader] + rows);
    Lines([DatabaseHeader] + rows)
  }

  lemma {:induction false} SelectAllDatabases(ds: seq<Database>)
    ensures SelectDatabases(ds, All, All) == ds
    decreases |ds|
  {
    if ds != [] {
      SelectAllDatabases(ds[1..]);
    }
  }

  /** Any filtered listing is an order-preserving selection of the rows of
      the unfiltered one, which lists all six databases. */
  lemma ListDatabaseSubsequence(t: string, server: string)
    ensures SplitLines(ListDatabase(All, All)) ==
              [DatabaseHeader] + MapSeq(Databases, DatabaseRow)
    ensures |SplitLines(ListDatabase(All, All))| == 1 + 6
    ensures IsSubsequence(SplitLines(ListDatabase(t, server)), SplitLines(ListDatabase(All, All)))
  {
    SelectAllDatabases(Databases);
    var sel := SelectDatabases(Databases, t, server);
    SubsequenceMap(sel, Databases, DatabaseRow);
    SubsequenceCons(DatabaseHeader, MapSeq(sel, DatabaseRow), MapSeq(Databases, DatabaseRow));
  }

  // ----------------------------------------------------------------- calls

  /** An argument's value, or the wildcard when the caller left it out. */
  function ArgOrAll(args: Args, key: string): string {
    if key in args then args[key] else All
  }

  /** The probe's call capability: dispatch on the function name. A name
      the probe does not advertise yields the empty string. */
  function FunctionCall(name: string, args: Args): (r: string)
    ensures r != "" <==> exists i :: 0 <= i < |FunctionList()| && FunctionList()[i].name == name
    ensures name == HealthCheckName ==> r == "Healthy"
  {
    var defs := FunctionList();
    assert defs[0].name == ListServersName && defs[1].name == ListDatabasesName
        && defs[2].name == HealthCheckName;
    if name == ListServersName then ListServers(ArgOrAll(args, "db_type"))
    else if name == ListDatabasesName then
      ListDatabase(ArgOrAll(args, "db_type"), ArgOrAll(args, "server"))
    else if name == HealthCheckName then "Healthy"
    else ""
  }

  /** Missing filter arguments behave as the wildcard; present ones are
      passed on unchanged. */
  lemma ArgumentDefaults(args: Args)
    ensures "db_type" !in args ==> FunctionCall(ListServersName, args) == ListServers(All)
    ensures "db_type" in args ==> FunctionCall(ListServersName, args) == ListServers(args["db_type"])
    ensures FunctionCall(ListDatabasesName, args) ==
              ListDatabase(if "db_type" in args then args["db_type"] else All,
                           if "server" in args then args["server"] else All)
    ensures FunctionCall(ListServersName, map[]) == ListServers(All)
    ensures FunctionCall(ListDatabasesName, map[]) == ListDatabase(All, All)
  {
  }
}
