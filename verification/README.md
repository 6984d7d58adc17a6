# Probe broker of the AIOps Assistant, in Dafny

The AIOps Assistant lets a language model call named "probe functions" to
collect live information about the environment. This project models the two
pieces of sequential logic at its centre:

- **The probe broker** (`ProbeController`, `assistant/probes/controller.py`).
  It holds a fixed, ordered registry of probes. Each probe has a name, a
  listing capability and a call capability. Constructing the controller builds
  a flat function index of `{probe, function}` entries in registry order.
  `function_list` concatenates the listings of every probe.
  `function_call` first finds the function's index entry by a first-match
  search and then finds its probe by name, again first-match. It hands
  `(name, args)` to that probe unchanged and returns the probe's string. The
  two lookup failures, function-not-found and probe-not-found, become the
  no-result outcome `None`.
- **The database probe** (`assistant/probes/database.py`), the one probe the
  shipped registry contains. It advertises three functions. Two of them filter
  static inventory tables by "`all` or equal" predicates and render CSV text
  with a fixed header. The third, the health check, always answers `Healthy`.

Modules, one per file:

- `Results` (`results.dfy`): `Option` and `Result`, used for the no-result
  outcome and the lookup errors.
- `Seqs` (`seqs.dfy`): first-match linear search, repetition and
  order-preserving subsequences.
- `ProbeTypes` (`probe_types.dfy`): function definitions, probes, index
  entries and call arguments.
- `Csv` (`csv.dfy`): newline-terminated text, plus a line reader that splits
  such text back into its lines.
- `DatabaseProbe` (`database.dfy`): the database probe.
- `Controller` (`controller.dfy`): the broker and the shipped registry.

A probe is modelled as a record holding its name, the definitions its listing
capability returns, and its call capability as a total Dafny function
`(string, Args) -> string`. Both the registry and the function index are class
attributes in the source. So the model keeps them as one explicit `State`,
and each construction appends one more full copy of the index
(`Construct`, `Instances`). Because resolution is first-match, the extra copies
never change a result; `RepeatedConstructionSameResult` proves this.

Where the source's comments and its code differ, the model follows the code:

- The `__init__` docstring (controller.py:102-104) says the function index is
  created for use by the class instance. The code appends to the class
  attribute `__function_index` (controller.py:96, 112), so every construction
  adds another copy of every entry to one index shared by all instances. The
  model does the same.
- `function_list` does not read the index: it calls every probe's listing
  capability again (controller.py:150-151). The model does the same
  (`FunctionList` loops over the registry) and proves that the result equals
  the definitions of one freshly built index.
- The `function_call` docstring (controller.py:163-166) says required
  arguments are checked. No check happens in the code, and none happens in
  the model.

The database probe's inventory tables are written out as in the source. The
two server hostname domains are named constants concatenated onto the server
names; the resulting strings are the ones the source lists.

## Model

| member | source | states |
|---|---|---|
| `Controller.BuildIndex` | assistant/probes/controller.py:110-112 | one construction yields exactly one index entry per advertised definition, and their definitions are, position by position, the concatenation of every probe's listing in registry order |
| `Controller.BuildIndexOwners` | assistant/probes/controller.py:110-112 | every index entry is tagged with the name of a registered probe whose listing holds the entry's definition |
| `Controller.BuildIndexAppend` | assistant/probes/controller.py:110-112 | building the index for two registries one after the other gives the two indexes one after the other, so registry order is kept |
| `Controller.NewInstance` | assistant/probes/controller.py:99-112 | the constructor's nested loops leave the registry unchanged and append exactly one built index to the shared index already there |
| `Controller.InstancesIndex` | assistant/probes/controller.py:96-112 | after the class is loaded and `n` instances are built, the registry is unchanged and the shared index is `n` copies of one built index |
| `Controller.FunctionList` | assistant/probes/controller.py:149-152 | the listing is the concatenation of every probe's listing in registry order, equal entry by entry to the definitions of one built index; it depends on the registry alone, which nothing changes, so repeated calls give equal sequences |
| `Controller.GetProbe` | assistant/probes/controller.py:117-121 | returns the first registry probe with the given name, and fails with probe-not-found carrying that name exactly when no probe has it |
| `Controller.GetFunction` | assistant/probes/controller.py:126-130 | returns the first index entry whose definition has the given name, and fails with function-not-found carrying that name exactly when no entry has it |
| `Controller.Dispatch` | assistant/probes/controller.py:181-207 | fails with function-not-found exactly when no index entry has the name, and such a failure always carries the requested name; succeeds whenever the first index entry with the name is tagged with a registered probe; a probe-not-found failure carries the probe tag of the first index entry with the name, and no registered probe has that tag; a success is the answer to exactly `(name, args)` of the first registered probe named by the tag of the first index entry with the name |
| `Controller.FunctionCall` | assistant/probes/controller.py:155-217 | a name absent from the index gives the no-result outcome and never an exception; a result is the answer to exactly `(name, args)` of the first registered probe named by the tag of the first index entry with the name, and there is a result whenever such an entry and probe exist |
| `Controller.InstancesWellFormed` | assistant/probes/controller.py:110-121 | however many instances are built, every index entry names a registered probe |
| `Controller.WellFormedFailsOnlyOnUnknownName` | assistant/probes/controller.py:183-217 | when every index entry names a registered probe, probe-not-found cannot happen, and the call has no result exactly when no index entry has the name |
| `Controller.RepeatedConstructionSameResult` | assistant/probes/controller.py:96-130 | the duplicated index of `n >= 1` instances resolves every name to the same entry as one built index, and every call returns what it returns after one construction |
| `Controller.BuildIndexWithout` | assistant/probes/controller.py:126-130 | an index built from probes none of which advertises a name has no entry with that name |
| `Controller.BuildIndexFirstOwner` | assistant/probes/controller.py:110-130 | in a built index, the first entry with a name belongs to the first probe in registry order that advertises it |
| `Controller.DispatchToFirstAdvertiser` | assistant/probes/controller.py:155-207 | a call is answered by the first registered probe whose name equals the name of the first probe advertising the function, with `(name, args)` unchanged, whatever later probes advertise; with unique probe names that is the first advertiser itself |
| `Controller.NoResultIffUnadvertised` | assistant/probes/controller.py:181-217 | once an instance exists, a call has no result exactly when no registered probe advertises the name |
| `Controller.ShippedListing` | assistant/probes/controller.py:83-89 | with the shipped registry the broker's listing is exactly the database probe's listing |
| `Controller.ShippedDispatch` | assistant/probes/controller.py:83-89 | with the shipped registry a call of any of the three advertised names returns the database probe's answer, and any other name gives no result |
| `Controller.ShippedHealthCheck` | assistant/probes/controller.py:155-207 | through the broker the health check always returns `Healthy` |
| `Controller.TwoProbeScenario` | assistant/probes/controller.py:133-217 | with probes "a" (`a1`, `a2`) and "b" (`b1`) the listing is `a1`, `a2`, `b1`; a call of `b1` is probe "b"'s answer to `("b1", args)`; an unknown name is a function-not-found failure |
| `Seqs.FindFirstRepeat` | assistant/probes/controller.py:127-129 | a first-match search over several copies of a sequence finds what it finds in one copy |
| `DatabaseProbe.FunctionList` | assistant/probes/database.py:48-94 | exactly three definitions, named `database_list_servers`, `database_list_databases` and `database_health_check` in that order, with distinct names |
| `DatabaseProbe.SelectServers` | assistant/probes/database.py:124-126 | a server is kept exactly when the type filter is `all` or equals its type, and the kept servers keep table order |
| `DatabaseProbe.SelectServersCounts` | assistant/probes/database.py:124-126 | the filter keeps each accepted server exactly as many times as the table holds it, and no rejected server |
| `DatabaseProbe.ListServers` | assistant/probes/database.py:97-127 | the text starts with the header `db_server,db_type,hostname` and a newline, ends with a newline, and reads back line by line as the header followed by one row per selected server, in table order |
| `DatabaseProbe.SelectAllServers` | assistant/probes/database.py:124-126 | the `all` filter keeps every server in table order |
| `DatabaseProbe.ListServersHeaderOnly` | assistant/probes/database.py:122-127 | the listing is the bare header exactly when the filter is neither `all` nor the type of any server |
| `DatabaseProbe.MysqlServers` | assistant/probes/database.py:114-126 | filtering by `mysql` keeps `sr-dbs01` and the `mysql` entry of `sr-dbs04`, in that order |
| `DatabaseProbe.SelectDatabases` | assistant/probes/database.py:161-164 | a database is kept exactly when the type filter is `all` or equals its type and the server filter is `all` or equals its server, and the kept databases keep table order |
| `DatabaseProbe.SelectDatabasesCounts` | assistant/probes/database.py:161-164 | the filters keep each accepted database exactly as many times as the table holds it, and no rejected database |
| `DatabaseProbe.ListDatabase` | assistant/probes/database.py:130-165 | the text starts with the header `db_name,db_type,db_server` and a newline, ends with a newline, and reads back as the header followed by one row per selected database, in table order |
| `DatabaseProbe.SelectAllDatabases` | assistant/probes/database.py:161-164 | the `all`/`all` filters keep every database in table order |
| `DatabaseProbe.ListDatabaseSubsequence` | assistant/probes/database.py:150-165 | the unfiltered listing has the header and all six databases, and the lines of any filtered listing are an order-preserving subsequence of its lines |
| `DatabaseProbe.FunctionCall` | assistant/probes/database.py:168-207 | the answer is empty exactly when the name is not one of the three advertised names; the health check answers `Healthy` for any arguments |
| `DatabaseProbe.ArgumentDefaults` | assistant/probes/database.py:195-201 | a missing `db_type` or `server` argument acts as `all`, a present one is passed on unchanged; with no arguments at all the two listings are the unfiltered ones |
| `Csv.SplitLinesOfLines` | assistant/probes/database.py:159-164 | text made of newline-free lines, each followed by a newline, reads back as exactly those lines |

## Left out

- Logging (`logger.debug`) and the console `print` of the error message and of an unknown function name. They do not affect any return value, so the text of the two error messages is not modelled either; only the error kind and the offending name are.
- `assistant/assistant.py` (configuration loading, the interactive loop, orchestration of the language model), `assistant/models/openai_gpt.py` (a network client) and `assistant/integrations/probe_mysql.py` (a live database connection). These are I/O and calls into external services.
- Call arguments are modelled as a map from names to strings. The source receives decoded JSON, whose values may also be numbers, lists or `None`. Non-string values, and a `None` argument map (on which the source's `.get` would raise), are not modelled.
- The JSON-schema `parameters` payloads are reduced to their property names and required names; the `type` and `enum` entries are not modelled, since the broker never reads them.
- The listing capability is modelled as the fixed sequence it returns. The source calls it again on every construction and every `function_list`, but it always returns the same static list.
- A probe's call capability is modelled as a total function. The source would let a probe exception propagate out of `function_call`; the shipped database probe never raises.
- Probe-name uniqueness is not enforced, since the source does not enforce it. `Controller.DispatchToFirstAdvertiser` states what happens in general, and what happens when names are unique.
