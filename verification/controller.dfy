/** The probe broker (`ProbeController`): it indexes the functions every
    registered probe advertises and dispatches calls by function name. */
module Controller {
  import opened Results
  import opened ProbeTypes
  import opened Seqs
  import DatabaseProbe

  /** The two lookup failures, each carrying the name that was not found. */
  datatype LookupError = FunctionNotFound(name: string) | ProbeNotFound(name: string)

  /** The broker's state. The source keeps both the registry and the
      function index as class attributes, so every instance shares them. */
  datatype State = State(registry: seq<Probe>, index: seq<Entry>)

  /** The registry the source ships with: the database probe alone. */
  const Registry: seq<Probe> :=
    [Probe("database", DatabaseProbe.FunctionList(), DatabaseProbe.FunctionCall)]

  /** The class as loaded, before any instance exists: the index is empty. */
  function Loaded(registry: seq<Probe>): State {
    State(registry, [])
  }

  // ------------------------------------------------------------ the index

  /** Every definition of every probe, probes in registry order and each
      probe's definitions in listing order. */
  function AllDefinitions(registry: seq<Probe>): seq<FunctionDef>
    decreases |registry|
  {
    if registry == [] then []
    else AllDefinitions(registry[..|registry| - 1]) + registry[|registry| - 1].listing
  }

  /** The index rows of one probe: each definition tagged with the probe's name. */
  function EntriesOf(p: Probe): (r: seq<Entry>)
    ensures |r| == |p.listing|
    ensures forall i :: 0 <= i < |r| ==> r[i] == Entry(p.name, p.listing[i])
  {
    seq(|p.listing|, i requires 0 <= i < |p.listing| => Entry(p.name, p.listing[i]))
  }

  /** The index one construction builds: one entry per advertised
      definition, in the order `AllDefinitions` lists them. */
  function BuildIndex(registry: seq<Probe>): (r: seq<Entry>)
    ensures |r| == |AllDefinitions(registry)|
    ensures forall k :: 0 <= k < |r| ==> r[k].def == AllDefinitions(registry)[k]
    decreases |registry|
  {
    if registry == [] then []
    else
      var a := BuildIndex(registry[..|registry| - 1]);
      var b := EntriesOf(registry[|registry| - 1]);
      assert forall k :: 0 <= k < |a| ==> (a + b)[k] == a[k];
      assert forall k :: |a| <= k < |a| + |b| ==> (a + b)[k] == b[k - |a|];
      a + b
  }

  /** Each index entry is tagged with the name of a registered probe whose
      listing holds the entry's definition. */
  lemma {:induction false} BuildIndexOwners(registry: seq<Probe>)
    ensures forall k :: 0 <= k < |BuildIndex(registry)| ==>
              exists j :: 0 <= j < |registry| && BuildIndex(registry)[k].probe == registry[j].name
                          && BuildIndex(registry)[k].def in registry[j].listing
    decreases |registry|
  {
    if registry != [] {
      var front := registry[..|registry| - 1];
      var last := registry[|registry| - 1];
      var a := BuildIndex(front);
      var b := EntriesOf(last);
      BuildIndexOwners(front);
      var r := BuildIndex(registry);
      assert r == a + b;
      forall k | 0 <= k < |r|
        ensures exists j :: 0 <= j < |registry| && r[k].probe == registry[j].name
                            && r[k].def in registry[j].listing
      {
        if k < |a| {
          assert r[k] == a[k];
          var j :| 0 <= j < |front| && a[k].probe == front[j].name && a[k].def in front[j].listing;
          assert front[j] == registry[j];
          assert r[k].probe == registry[j].name && r[k].def in registry[j].listing;
        } else {
          var i := k - |a|;
          assert r[k] == b[i] == Entry(last.name, last.listing[i]);
          assert last.listing[i] in last.listing;
          var j := |registry| - 1;
          assert r[k].probe == registry[j].name && r[k].def in registry[j].listing;
        }
      }
    } else {
      assert BuildIndex(registry) == [];
    }
  }

  /** Building the index for a registry split in two gives the two indexes
      one after the other. */
  lemma {:induction false} BuildIndexAppend(a: seq<Probe>, b: seq<Probe>)
    ensures BuildIndex(a + b) == BuildIndex(a) + BuildIndex(b)
    decreases |b|
  {
    if b == [] {
      assert a + b == a;
    } else {
      var b' := b[..|b| - 1];
      assert (a + b)[..|a + b| - 1] == a + b';
      assert (a + b)[|a + b| - 1] == b[|b| - 1];
      BuildIndexAppend(a, b');
    }
  }

  /** One construction of `ProbeController`: the shared index grows by a
      full copy of every probe's entries; the registry is untouched. */
  function Construct(s: State): State {
    s.(index := s.index + BuildIndex(s.registry))
  }

  /** The state after the class is loaded and `n` instances are constructed. */
  function Instances(registry: seq<Probe>, n: nat): State {
    if n == 0 then Loaded(registry) else Construct(Instances(registry, n - 1))
  }

  /** The constructor's nested loops: for each probe in registry order, for
      each definition in its listing, append one entry to the shared index. */
  method NewInstance(s: State) returns (t: State)
    ensures t.registry == s.registry
    ensures t.index == s.index + BuildIndex(s.registry)
  {
    var index := s.index;
    var i := 0;
    while i < |s.registry|
      invariant 0 <= i <= |s.registry|
      invariant index == s.index + BuildIndex(s.registry[..i])
    {
      var probe := s.registry[i];
      var entries := EntriesOf(probe);
      var before := index;
      var j := 0;
      while j < |probe.listing|
        invariant 0 <= j <= |probe.listing|
        invariant index == before + entries[..j]
      {
        assert entries[..j + 1] == entries[..j] + [Entry(probe.name, probe.listing[j])];
        index := index + [Entry(probe.name, probe.listing[j])];
        j := j + 1;
      }
      assert entries[..j] == entries;
      BuildIndexPrefix(s.registry, i);
      i := i + 1;
    }
    assert s.registry[..i] == s.registry;
    t := s.(index := index);
  }

  /** Extending a registry prefix by one probe extends its index by that
      probe's entries. */
  lemma BuildIndexPrefix(registry: seq<Probe>, i: nat)
    requires i < |registry|
    ensures BuildIndex(registry[..i + 1]) == BuildIndex(registry[..i]) + EntriesOf(registry[i])
  {
    assert registry[..i + 1][..i] == registry[..i];
  }

  /** The index after `n` constructions is `n` copies of one build. */
  lemma {:induction false} InstancesIndex(registry: seq<Probe>, n: nat)
    ensures Instances(registry, n).registry == registry
    ensures Instances(registry, n).index == Repeat(BuildIndex(registry), n)
    decreases n
  {
    if n > 0 {
      InstancesIndex(registry, n - 1);
    }
  }

  // ------------------------------------------------------------- listing

  /** `function_list`: the concatenation of every probe's listing, built
      left to right as the source's loop does. It reads the registry only,
      which nothing changes, so repeated calls return the same sequence. */
  method FunctionList(s: State) returns (defs: seq<FunctionDef>)
    ensures defs == AllDefinitions(s.registry)
    ensures |defs| == |BuildIndex(s.registry)|
    ensures forall k :: 0 <= k < |defs| ==> defs[k] == BuildIndex(s.registry)[k].def
  {
    defs := [];
    var i := 0;
    while i < |s.registry|
      invariant 0 <= i <= |s.registry|
      invariant defs == AllDefinitions(s.registry[..i])
    {
      assert s.registry[..i + 1][..i] == s.registry[..i];
      defs := defs + s.registry[i].listing;
      i := i + 1;
    }
    assert s.registry[..i] == s.registry;
  }

  // ------------------------------------------------------------- lookups

  function ProbeNamed(name: string): Probe -> bool {
    (p: Probe) => p.name == name
  }

  function EntryNamed(name: string): Entry -> bool {
    (e: Entry) => e.def.name == name
  }

  /** `__get_probe`: the first registered probe called `name`. */
  function GetProbe(registry: seq<Probe>, name: string): (r: Result<Probe, LookupError>)
    ensures r.Err? <==> forall j :: 0 <= j < |registry| ==> registry[j].name != name
    ensures r.Err? ==> r.error == ProbeNotFound(name)
    ensures r.Ok? ==> exists j :: 0 <= j < |registry| && registry[j] == r.value
                        && r.value.name == name
                        && forall i :: 0 <= i < j ==> registry[i].name != name
  {
    match FindFirst(registry, ProbeNamed(name))
    case None => Err(ProbeNotFound(name))
    case Some(j) => Ok(registry[j])
  }

  /** `__get_function`: the first index entry whose definition is called `name`. */
  function GetFunction(index: seq<Entry>, name: string): (r: Result<Entry, LookupError>)
    ensures r.Err? <==> forall k :: 0 <= k < |index| ==> index[k].def.name != name
    ensures r.Err? ==> r.error == FunctionNotFound(name)
    ensures r.Ok? ==> exists k :: 0 <= k < |index| && index[k] == r.value
                        && r.value.def.name == name
                        && forall i :: 0 <= i < k ==> index[i].def.name != name
  {
    match FindFirst(index, EntryNamed(name))
    case None => Err(FunctionNotFound(name))
    case Some(k) => Ok(index[k])
  }

  // ------------------------------------------------------------- dispatch

  /** The body of `function_call` with its two exceptions as values: find
      the function's entry, find its probe, and hand `(name, args)` to the
      probe's call capability unchanged. */
  function Dispatch(s: State, name: string, args: Args): (r: Result<string, LookupError>)
    ensures r == Err(FunctionNotFound(name)) <==>
              forall k :: 0 <= k < |s.index| ==> s.index[k].def.name != name
    ensures r.Err? && r.error.FunctionNotFound? ==> r.error.name == name
    ensures (exists k, j :: FirstEntry(s.index, name, k) && FirstProbe(s.registry, s.index[k].probe, j)) ==>
              r.Ok?
    ensures r.Err? && r.error.ProbeNotFound? ==>
              exists k :: FirstEntry(s.index, name, k) && s.index[k].probe == r.error.name
                          && forall j :: 0 <= j < |s.registry| ==> s.registry[j].name != r.error.name
    ensures r.Ok? ==>
              exists k, j :: FirstEntry(s.index, name, k) && FirstProbe(s.registry, s.index[k].probe, j)
                             && r.value == s.registry[j].call(name, args)
  {
    match GetFunction(s.index, name)
    case Err(e) => Err(e)
    case Ok(entry) =>
      match GetProbe(s.registry, entry.probe)
      case Err(e) => Err(e)
      case Ok(probe) => Ok(probe.call(name, args))
  }

  /** `function_call`: both lookup failures become the no-result outcome;
      otherwise the answer is that of the first probe named by the tag of
      the first index entry called `name`. */
  function FunctionCall(s: State, name: string, args: Args): (r: Option<string>)
    ensures (forall k :: 0 <= k < |s.index| ==> s.index[k].def.name != name) ==> r == None
    ensures r.Some? ==>
              exists k, j :: FirstEntry(s.index, name, k) && FirstProbe(s.registry, s.index[k].probe, j)
                             && r.value == s.registry[j].call(name, args)
    ensures (exists k, j :: FirstEntry(s.index, name, k) && FirstProbe(s.registry, s.index[k].probe, j)) ==>
              r.Some?
  {
    Dispatch(s, name, args).ToOption()
  }

  /** `k` is the position of the first index entry called `name`. */
  ghost predicate FirstEntry(index: seq<Entry>, name: string, k: int) {
    && 0 <= k < |index|
    && index[k].def.name == name
    && forall i :: 0 <= i < k ==> index[i].def.name != name
  }

  /** `j` is the position of the first registered probe called `name`. */
  ghost predicate FirstProbe(registry: seq<Probe>, name: string, j: int) {
    && 0 <= j < |registry|
    && registry[j].name == name
    && forall i :: 0 <= i < j ==> registry[i].name != name
  }

  // ----------------------------------------------------------- properties

  /** Every index entry names a registered probe. */
  ghost predicate WellFormed(s: State) {
    forall k :: 0 <= k < |s.index| ==>
      exists j :: 0 <= j < |s.registry| && s.registry[j].name == s.index[k].probe
  }

  /** However many instances are constructed, the index only refers to
      registered probes. */
  lemma InstancesWellFormed(registry: seq<Probe>, n: nat)
    ensures WellFormed(Instances(registry, n))
  {
    InstancesIndex(registry, n);
    var s := Instances(registry, n);
    var b := BuildIndex(registry);
    BuildIndexOwners(registry);
    RepeatElements(b, n);
    forall k | 0 <= k < |s.index|
      ensures exists j :: 0 <= j < |s.registry| && s.registry[j].name == s.index[k].probe
    {
      var e := s.index[k];
      assert e in b;
      var m :| 0 <= m < |b| && b[m] == e;
    }
  }

  /** In a well-formed state the probe lookup cannot fail: the only failure
      left is an unknown function name, and it happens exactly when no
      entry has that name. */
  lemma WellFormedFailsOnlyOnUnknownName(s: State, name: string, args: Args)
    requires WellFormed(s)
    ensures Dispatch(s, name, args).Err? ==> Dispatch(s, name, args) == Err(FunctionNotFound(name))
    ensures FunctionCall(s, name, args) == None <==>
              forall k :: 0 <= k < |s.index| ==> s.index[k].def.name != name
  {
    var f := GetFunction(s.index, name);
    if f.Ok? {
      var k :| 0 <= k < |s.index| && s.index[k] == f.value;
      var j :| 0 <= j < |s.registry| && s.registry[j].name == s.index[k].probe;
      assert GetProbe(s.registry, f.value.probe).Ok?;
    }
  }

  /** Constructing more instances, which duplicates the index, does not
      change how any name resolves or what any call returns. */
  lemma RepeatedConstructionSameResult(registry: seq<Probe>, n: nat, name: string, args: Args)
    requires n >= 1
    ensures GetFunction(Instances(registry, n).index, name) == GetFunction(BuildIndex(registry), name)
    ensures FunctionCall(Instances(registry, n), name, args) == FunctionCall(Instances(registry, 1), name, args)
  {
    var b := BuildIndex(registry);
    InstancesIndex(registry, n);
    InstancesIndex(registry, 1);
    FindFirstRepeat(b, n, EntryNamed(name));
    FindFirstRepeat(b, 1, EntryNamed(name));
    RepeatPrefix(b, n);
    RepeatPrefix(b, 1);
    assert GetFunction(Repeat(b, n), name) == GetFunction(b, name);
    assert GetFunction(Repeat(b, 1), name) == GetFunction(b, name);
  }

  /** No entry built from probes that do not advertise `name` matches it. */
  lemma BuildIndexWithout(registry: seq<Probe>, name: string)
    requires forall i :: 0 <= i < |registry| ==> !Advertises(registry[i], name)
    ensures FindFirst(BuildIndex(registry), EntryNamed(name)).None?
  {
    var b := BuildIndex(registry);
    BuildIndexOwners(registry);
    forall k | 0 <= k < |b| ensures !EntryNamed(name)(b[k]) {
      var j :| 0 <= j < |registry| && b[k].probe == registry[j].name && b[k].def in registry[j].listing;
      assert !Advertises(registry[j], name);
    }
  }

  /** In a freshly built index, the first entry called `name` belongs to
      the first probe in registry order that advertises it. */
  lemma BuildIndexFirstOwner(registry: seq<Probe>, j: nat, name: string)
    requires j < |registry| && Advertises(registry[j], name)
    requires forall i :: 0 <= i < j ==> !Advertises(registry[i], name)
    ensures GetFunction(BuildIndex(registry), name).Ok?
    ensures GetFunction(BuildIndex(registry), name).value.probe == registry[j].name
  {
    var a := BuildIndex(registry[..j]);
    var e := EntriesOf(registry[j]);
    var c := BuildIndex(registry[j + 1..]);
    BuildIndexSplit(registry, j);
    BuildIndexWithout(registry[..j], name);
    EntriesFind(registry[j], name);
    FindFirstMiddle(a, e, c, EntryNamed(name));
  }

  /** The index splits at any probe into the part before, that probe's
      entries, and the part after. */
  lemma BuildIndexSplit(registry: seq<Probe>, j: nat)
    requires j < |registry|
    ensures BuildIndex(registry) ==
              BuildIndex(registry[..j]) + EntriesOf(registry[j]) + BuildIndex(registry[j + 1..])
  {
    assert registry == registry[..j + 1] + registry[j + 1..];
    BuildIndexAppend(registry[..j + 1], registry[j + 1..]);
    BuildIndexPrefix(registry, j);
  }

  /** The entries of a probe that advertises `name` contain a match. */
  lemma EntriesFind(probe: Probe, name: string)
    requires Advertises(probe, name)
    ensures FindFirst(EntriesOf(probe), EntryNamed(name)).Some?
  {
    var d :| d in probe.listing && d.name == name;
    var m :| 0 <= m < |probe.listing| && probe.listing[m] == d;
    assert EntryNamed(name)(EntriesOf(probe)[m]);
  }

  /** A call is answered by the first registered probe whose name equals the
      name of the first probe advertising the function, with `(name, args)`
      unchanged, whatever later probes advertise; with unique probe names
      that is the first advertiser itself. */
  lemma DispatchToFirstAdvertiser(registry: seq<Probe>, n: nat, j: nat, name: string, args: Args)
    requires n >= 1
    requires j < |registry| && Advertises(registry[j], name)
    requires forall i :: 0 <= i < j ==> !Advertises(registry[i], name)
    ensures GetProbe(registry, registry[j].name).Ok?
    ensures FunctionCall(Instances(registry, n), name, args)
              == Some(GetProbe(registry, registry[j].name).value.call(name, args))
    ensures (forall a, b :: 0 <= a < b < |registry| ==> registry[a].name != registry[b].name) ==>
              FunctionCall(Instances(registry, n), name, args) == Some(registry[j].call(name, args))
  {
    RepeatedConstructionSameResult(registry, n, name, args);
    InstancesIndex(registry, n);
    BuildIndexFirstOwner(registry, j, name);
  }

  /** A call has no result exactly when no registered probe advertises the name. */
  lemma NoResultIffUnadvertised(registry: seq<Probe>, n: nat, name: string, args: Args)
    requires n >= 1
    ensures FunctionCall(Instances(registry, n), name, args) == None <==>
              forall i :: 0 <= i < |registry| ==> !Advertises(registry[i], name)
  {
    if forall i :: 0 <= i < |registry| ==> !Advertises(registry[i], name) {
      RepeatedConstructionSameResult(registry, n, name, args);
      InstancesIndex(registry, n);
      FindFirstRepeat(BuildIndex(registry), n, EntryNamed(name));
      BuildIndexWithout(registry, name);
    } else {
      var j := FirstAdvertiser(registry, name);
      DispatchToFirstAdvertiser(registry, n, j, name, args);
    }
  }

  /** The position of the first probe advertising `name`. */
  lemma FirstAdvertiser(registry: seq<Probe>, name: string) returns (j: nat)
    requires exists i :: 0 <= i < |registry| && Advertises(registry[i], name)
    ensures j < |registry| && Advertises(registry[j], name)
    ensures forall i :: 0 <= i < j ==> !Advertises(registry[i], name)
  {
    j := 0;
    while !Advertises(registry[j], name)
      invariant j < |registry|
      invariant forall i :: 0 <= i < j ==> !Advertises(registry[i], name)
      decreases |registry| - j
    {
      j := j + 1;
    }
  }

  // -------------------------------------------------- the shipped registry

  /** With the shipped registry the broker lists exactly the database
      probe's definitions. */
  lemma ShippedListing()
    ensures AllDefinitions(Registry) == DatabaseProbe.FunctionList()
  {
    assert Registry[..0] == [];
  }

  /** With the shipped registry the broker answers every name the database
      probe advertises with that probe's own answer, and has no result for
      any other name. */
  lemma ShippedDispatch(n: nat, name: string, args: Args)
    requires n >= 1
    ensures (exists i :: 0 <= i < 3 && DatabaseProbe.FunctionList()[i].name == name) ==>
              FunctionCall(Instances(Registry, n), name, args) == Some(DatabaseProbe.FunctionCall(name, args))
    ensures (forall i :: 0 <= i < 3 ==> DatabaseProbe.FunctionList()[i].name != name) ==>
              FunctionCall(Instances(Registry, n), name, args) == None
  {
    var probe := Registry[0];
    var defs := DatabaseProbe.FunctionList();
    assert probe.listing == defs;
    if exists i :: 0 <= i < 3 && defs[i].name == name {
      var i :| 0 <= i < 3 && defs[i].name == name;
      assert defs[i] in probe.listing;
      DispatchToFirstAdvertiser(Registry, n, 0, name, args);
    } else {
      assert forall k :: 0 <= k < |Registry| ==> !Advertises(Registry[k], name) by {
        forall k, d | 0 <= k < |Registry| && d in Registry[k].listing ensures d.name != name {
          assert k == 0;
          var i :| 0 <= i < 3 && defs[i] == d;
        }
      }
      NoResultIffUnadvertised(Registry, n, name, args);
    }
  }

  /** Through the broker, the database health check always reports healthy. */
  lemma ShippedHealthCheck(n: nat, args: Args)
    requires n >= 1
    ensures FunctionCall(Instances(Registry, n), DatabaseProbe.HealthCheckName, args) == Some("Healthy")
  {
    assert DatabaseProbe.FunctionList()[2].name == DatabaseProbe.HealthCheckName;
    ShippedDispatch(n, DatabaseProbe.HealthCheckName, args);
  }

  /** Two probes: "a" advertising `a1` and `a2`, then "b" advertising `b1`. */
  function TwoProbes(callA: (string, Args) -> string, callB: (string, Args) -> string): seq<Probe> {
    [Probe("a", [Def("a1"), Def("a2")], callA), Probe("b", [Def("b1")], callB)]
  }

  /** For two probes the broker lists `a1`, `a2`, `b1` in that order, hands
      a call of `b1` to probe "b" with the arguments unchanged, and reports an
      unknown name as a function-not-found failure. */
  lemma TwoProbeScenario(callA: (string, Args) -> string, callB: (string, Args) -> string,
                         n: nat, args: Args)
    requires n >= 1
    ensures AllDefinitions(TwoProbes(callA, callB)) == [Def("a1"), Def("a2"), Def("b1")]
    ensures FunctionCall(Instances(TwoProbes(callA, callB), n), "b1", args) == Some(callB("b1", args))
    ensures Dispatch(Instances(TwoProbes(callA, callB), n), "missing", map[]) == Err(FunctionNotFound("missing"))
  {
    var registry := TwoProbes(callA, callB);
    assert registry[..1] == [registry[0]] && [registry[0]][..0] == [];
    assert registry[..|registry| - 1] == registry[..1];
    assert AllDefinitions(registry[..1]) == [Def("a1"), Def("a2")];
    TwoProbesCallB(callA, callB, n, args);
    TwoProbesMissing(callA, callB, n);
  }

  lemma TwoProbesCallB(callA: (string, Args) -> string, callB: (string, Args) -> string,
                       n: nat, args: Args)
    requires n >= 1
    ensures FunctionCall(Instances(TwoProbes(callA, callB), n), "b1", args) == Some(callB("b1", args))
  {
    var registry := TwoProbes(callA, callB);
    assert !Advertises(registry[0], "b1") by {
      forall d | d in registry[0].listing ensures d.name != "b1" { }
    }
    assert Def("b1") in registry[1].listing;
    DispatchToFirstAdvertiser(registry, n, 1, "b1", args);
  }

  lemma TwoProbesMissing(callA: (string, Args) -> string, callB: (string, Args) -> string, n: nat)
    requires n >= 1
    ensures Dispatch(Instances(TwoProbes(callA, callB), n), "missing", map[]) == Err(FunctionNotFound("missing"))
  {
    var registry := TwoProbes(callA, callB);
    assert forall i :: 0 <= i < |registry| ==> !Advertises(registry[i], "missing") by {
      forall i, d | 0 <= i < |registry| && d in registry[i].listing ensures d.name != "missing" { }
    }
    NoResultIffUnadvertised(registry, n, "missing", map[]);
    InstancesWellFormed(registry, n);
    WellFormedFailsOnlyOnUnknownName(Instances(registry, n), "missing", map[]);
  }

  /** A definition with the given name and an empty schema. */
  function Def(name: string): FunctionDef {
    FunctionDef(name, "", Schema([], []))
  }
}
