/** MCP server configuration: the workspace file and the user's plugin file are validated,
    merged with the workspace winning, sorted and cut to sixteen servers; and the names under
    which their tools are offered. */
module McpConfig {
  import opened Names
  import opened Text
  import ToolOutput
  import opened Wrappers

  const MAX_SERVERS: nat := 16

  datatype Entry = Entry(command: string, args: seq<string>, env: map<string, string>, enabled: bool)

  datatype Server = Server(name: string, command: string, args: seq<string>, env: map<string, string>, enabled: bool)

  predicate NameChar(c: char) {
    'a' <= c <= 'z' || 'A' <= c <= 'Z' || '0' <= c <= '9' || c == '_' || c == '-'
  }

  predicate IsValidName(name: string) {
    name != "" && |name| <= 64 && forall i :: 0 <= i < |name| ==> NameChar(name[i])
  }

  function Command(e: Entry): (r: string) {
    Trim(e.command, ToolOutput.IsSpace)
  }

  predicate ValidEntry(name: string, e: Entry) {
    IsValidName(name) && Command(e) != ""
  }

  type Check = (string, Entry) -> bool
  type Maker = (string, Entry) -> Server

  ghost predicate AllPass(file: map<string, Entry>, valid: Check) {
    forall name :: name in file ==> valid(name, file[name])
  }

  ghost predicate AllValid(file: map<string, Entry>) {
    AllPass(file, ValidEntry)
  }

  function PluginEnabled(overrides: map<string, bool>, source: string, name: string, default: bool): (r: bool) {
    var key := source + ":" + name;
    if key in overrides then overrides[key] else default
  }

  function ServerOf(name: string, e: Entry, enabled: bool): (r: Server) {
    Server(name, Command(e), e.args, e.env, enabled)
  }

  /** What an entry must be: a name of one to sixty-four ASCII letters, digits, underscores and
      hyphens, and a command that is not blank. */
  ghost predicate Acceptable(name: string, e: Entry) {
    && 1 <= |name| <= 64
    && (forall c :: c in name ==> 'a' <= c <= 'z' || 'A' <= c <= 'Z' || '0' <= c <= '9' || c == '_' || c == '-')
    && !AllSpace(e.command, ToolOutput.IsSpace)
  }

  lemma AcceptableExactly(name: string, e: Entry)
    ensures ValidEntry(name, e) <==> Acceptable(name, e)
  {
    TrimmedAway(e.command, ToolOutput.IsSpace);
    assert (forall i :: 0 <= i < |name| ==> NameChar(name[i])) <==> (forall c :: c in name ==> NameChar(c));
  }

  ghost predicate AllAcceptable(file: map<string, Entry>) {
    forall name :: name in file ==> Acceptable(name, file[name])
  }

  lemma AllAcceptableExactly(file: map<string, Entry>)
    ensures AllValid(file) <==> AllAcceptable(file)
  {
    forall name | name in file ensures ValidEntry(name, file[name]) <==> Acceptable(name, file[name]) {
      AcceptableExactly(name, file[name]);
    }
  }

  /** The server is the entry with its command trimmed, switched by `enabled`. */
  predicate Carries(s: Server, e: Entry, enabled: bool) {
    && s.command == Trim(e.command, ToolOutput.IsSpace)
    && s.args == e.args && s.env == e.env && s.enabled == enabled
  }

  /** The server comes from the workspace's entry of its name, or from the user's if the workspace
      has none, under the override for that file and name if there is one. */
  predicate FromFiles(s: Server, workspace: map<string, Entry>, user: map<string, Entry>,
                      overrides: map<string, bool>) {
    if s.name in workspace then
      var key, e := "workspace:" + s.name, workspace[s.name];
      Carries(s, e, if key in overrides then overrides[key] else e.enabled)
    else
      var key := "user:" + s.name;
      s.name in user && Carries(s, user[s.name], if key in overrides then overrides[key] else user[s.name].enabled)
  }

  // ---------- the first names of a set ----------

  function NamesOf(servers: seq<Server>): (r: seq<string>)
    ensures |r| == |servers| && forall i :: 0 <= i < |r| ==> r[i] == servers[i].name
  {
    seq(|servers|, i requires 0 <= i < |servers| => servers[i].name)
  }

  /** `names` lists, in order, the `limit` least of `keys`, or all of them if there are fewer. */
  ghost predicate FirstNames(names: seq<string>, keys: set<string>, limit: nat) {
    && Ascending(names)
    && |names| <= limit
    && (forall n :: n in names ==> n in keys)
    && (forall k, n :: k in keys && k !in names && n in names ==> Less(n, k))
    && (|names| < limit ==> forall k :: k in keys ==> k in names)
  }

  /** There is only one such listing. */
  lemma {:induction false} FirstNamesUnique(a: seq<string>, b: seq<string>, keys: set<string>, limit: nat)
    requires FirstNames(a, keys, limit) && FirstNames(b, keys, limit)
    ensures a == b
  {
    if limit == 0 {
    } else if a == [] {
      HasMember(b);
    } else if b == [] {
      HasMember(a);
    } else {
      FirstIsLeast(a, b, keys, limit);
      FirstNamesTail(a, keys, limit);
      FirstNamesTail(b, keys, limit);
      FirstNamesUnique(a[1..], b[1..], keys - {a[0]}, limit - 1);
      assert a == [a[0]] + a[1..] && b == [b[0]] + b[1..];
    }
  }

  lemma FirstIsLeast(a: seq<string>, b: seq<string>, keys: set<string>, limit: nat)
    requires FirstNames(a, keys, limit) && FirstNames(b, keys, limit) && a != [] && b != []
    ensures a[0] == b[0]
  {
    HeadBelow(a, keys, limit, b[0]);
    HeadBelow(b, keys, limit, a[0]);
    LessTotal(a[0], b[0]);
  }

  lemma HeadBelow(a: seq<string>, keys: set<string>, limit: nat, k: string)
    requires FirstNames(a, keys, limit) && a != [] && k in keys
    ensures a[0] == k || Less(a[0], k)
  {
    if k in a {
      HeadIsLeast(a, k);
    } else {
      assert a[0] in a;
    }
  }

  lemma FirstNamesTail(a: seq<string>, keys: set<string>, limit: nat)
    requires FirstNames(a, keys, limit) && a != []
    ensures limit > 0 && FirstNames(a[1..], keys - {a[0]}, limit - 1)
  {
    TailMembers(a);
  }

  lemma FirstOfAll(all: seq<string>, keys: set<string>, limit: nat)
    requires Ascending(all) && forall k :: k in keys <==> k in all
    ensures FirstNames(if |all| <= limit then all else all[..limit], keys, limit)
  {
    if |all| > limit {
      var names := all[..limit];
      forall k, n | k in keys && k !in names && n in names
        ensures Less(n, k)
      {
        var i :| 0 <= i < |all| && all[i] == k;
        var j :| 0 <= j < |names| && names[j] == n;
        PrefixHas(all, limit, i);
        assert all[j] == n;
      }
    }
  }

  lemma PrefixHas(all: seq<string>, limit: nat, i: nat)
    requires limit <= |all| && i < |all|
    ensures i < limit ==> all[i] in all[..limit]
  {
    if i < limit { assert all[..limit][i] == all[i]; }
  }

  // ---------- sorting ----------

  /** The list sorted by name, as the library sort leaves it. */
  method SortByName(servers: seq<Server>) returns (sorted: seq<Server>)
    requires forall i, j :: 0 <= i < j < |servers| ==> servers[i].name != servers[j].name
    ensures Ascending(NamesOf(sorted))
    ensures forall s :: s in sorted <==> s in servers
  {
    sorted := [];
    for i := 0 to |servers|
      invariant Ascending(NamesOf(sorted))
      invariant forall s :: s in sorted <==> s in servers[..i]
    {
      var at := 0;
      while at < |sorted| && Less(sorted[at].name, servers[i].name)
        invariant 0 <= at <= |sorted|
        invariant forall j :: 0 <= j < at ==> Less(sorted[j].name, servers[i].name)
      {
        at := at + 1;
      }
      forall j | 0 <= j < |sorted| ensures sorted[j].name != servers[i].name {
        assert sorted[j] in servers[..i];
      }
      InsertAscending(sorted, servers[i], at);
      assert servers[..i + 1] == servers[..i] + [servers[i]];
      sorted := sorted[..at] + [servers[i]] + sorted[at..];
    }
    assert servers[..|servers|] == servers;
  }

  lemma InsertAscending(sorted: seq<Server>, s: Server, at: nat)
    requires Ascending(NamesOf(sorted)) && at <= |sorted|
    requires forall j :: 0 <= j < |sorted| ==> sorted[j].name != s.name
    requires forall j :: 0 <= j < at ==> Less(sorted[j].name, s.name)
    requires at < |sorted| ==> !Less(sorted[at].name, s.name)
    ensures Ascending(NamesOf(sorted[..at] + [s] + sorted[at..]))
    ensures forall x :: x in sorted[..at] + [s] + sorted[at..] <==> x in sorted || x == s
  {
    var names := NamesOf(sorted);
    InsertName(names, s.name, at);
    assert NamesOf(sorted[..at] + [s] + sorted[at..]) == names[..at] + [s.name] + names[at..];
    assert sorted == sorted[..at] + sorted[at..];
  }

  lemma InsertName(names: seq<string>, name: string, at: nat)
    requires Ascending(names) && at <= |names| && name !in names
    requires forall j :: 0 <= j < at ==> Less(names[j], name)
    requires at < |names| ==> !Less(names[at], name)
    ensures Ascending(names[..at] + [name] + names[at..])
  {
    forall j | at <= j < |names| ensures Less(name, names[j]) {
      LessTotal(names[at], name);
      if j > at { LessTransitive(name, names[at], names[j]); }
    }
    var all := names[..at] + [name] + names[at..];
    forall i, j | 0 <= i < j < |all|
      ensures Less(all[i], all[j])
    {
      assert all[i] == if i < at then names[i] else if i == at then name else names[i - 1];
      assert all[j] == if j < at then names[j] else if j == at then name else names[j - 1];
    }
  }

  /** `servers` are the first entries of the table, sorted by name. */
  ghost predicate IsFirst(servers: seq<Server>, table: map<string, Server>, limit: nat) {
    && FirstNames(NamesOf(servers), table.Keys, limit)
    && forall i :: 0 <= i < |servers| ==> servers[i].name in table && table[servers[i].name] == servers[i]
  }

  lemma IsFirstUnique(a: seq<Server>, b: seq<Server>, table: map<string, Server>, limit: nat)
    requires IsFirst(a, table, limit) && IsFirst(b, table, limit)
    ensures a == b
  {
    FirstNamesUnique(NamesOf(a), NamesOf(b), table.Keys, limit);
    assert |a| == |NamesOf(a)| && |b| == |NamesOf(b)|;
    forall i | 0 <= i < |a| ensures a[i] == b[i] {
      assert NamesOf(a)[i] == NamesOf(b)[i];
    }
  }

  /** Collects the table's values in any order, sorts and truncates. */
  method SortAndTruncate(table: map<string, Server>) returns (servers: seq<Server>)
    requires forall n :: n in table ==> table[n].name == n
    ensures IsFirst(servers, table, MAX_SERVERS)
  {
    servers := [];
    var rest := table.Keys;
    while rest != {}
      invariant rest <= table.Keys
      invariant forall i :: 0 <= i < |servers| ==> servers[i].name in table && servers[i].name !in rest
      invariant forall i :: 0 <= i < |servers| ==> table[servers[i].name] == servers[i]
      invariant forall n :: n in table && n !in rest ==> table[n] in servers
      invariant forall i, j :: 0 <= i < j < |servers| ==> servers[i].name != servers[j].name
    {
      var name :| name in rest;
      rest := rest - {name};
      servers := servers + [table[name]];
    }
    ghost var all := servers;
    servers := SortByName(servers);
    SortedListsTable(servers, all, table);
    if |servers| > MAX_SERVERS {
      assert NamesOf(servers[..MAX_SERVERS]) == NamesOf(servers)[..MAX_SERVERS];
      servers := servers[..MAX_SERVERS];
    }
  }

  lemma SortedListsTable(sorted: seq<Server>, all: seq<Server>, table: map<string, Server>)
    requires Ascending(NamesOf(sorted)) && forall s :: s in sorted <==> s in all
    requires forall i :: 0 <= i < |all| ==> all[i].name in table && table[all[i].name] == all[i]
    requires forall n :: n in table ==> table[n] in all && table[n].name == n
    ensures forall i :: 0 <= i < |sorted| ==> sorted[i].name in table && table[sorted[i].name] == sorted[i]
    ensures FirstNames(if |sorted| <= MAX_SERVERS then NamesOf(sorted) else NamesOf(sorted)[..MAX_SERVERS],
                       table.Keys, MAX_SERVERS)
  {
    var names := NamesOf(sorted);
    forall i | 0 <= i < |sorted|
      ensures sorted[i].name in table && table[sorted[i].name] == sorted[i]
    {
      assert sorted[i] in sorted;
    }
    forall n | n in table ensures n in names {
      var i :| 0 <= i < |sorted| && sorted[i] == table[n];
      assert names[i] == n;
    }
    FirstOfAll(names, table.Keys, MAX_SERVERS);
  }

  // ---------- the files ----------

  function ServerFor(name: string, e: Entry): (r: Server) {
    ServerOf(name, e, e.enabled)
  }

  function WithWorkspaceOverride(overrides: map<string, bool>): (r: Server -> Server) {
    (s: Server) => s.(enabled := PluginEnabled(overrides, "workspace", s.name, s.enabled))
  }

  function UserServer(overrides: map<string, bool>): (r: Maker) {
    (name, e: Entry) => ServerOf(name, e, PluginEnabled(overrides, "user", name, e.enabled))
  }

  function Table(file: map<string, Entry>, make: Maker): (r: map<string, Server>) {
    map n | n in file :: make(n, file[n])
  }

  ghost predicate Named(make: Maker) {
    forall n, e :: make(n, e).name == n
  }

  /** Checks every entry of a file, meeting them in any order, and adds its server under a
      name that is still free. */
  method AddEntries(start: map<string, Server>, file: map<string, Entry>, valid: Check, make: Maker)
      returns (r: Result<map<string, Server>>)
    ensures r.Err? <==> !AllPass(file, valid)
    ensures r.Ok? ==> r.value.Keys == start.Keys + file.Keys
    ensures r.Ok? ==> forall n :: n in r.value ==> r.value[n] == if n in start then start[n] else make(n, file[n])
  {
    var byName := start;
    var rest := file.Keys;
    while rest != {}
      invariant rest <= file.Keys
      invariant forall n :: n in file && n !in rest ==> valid(n, file[n])
      invariant byName.Keys == start.Keys + (file.Keys - rest)
      invariant forall n :: n in byName ==> byName[n] == if n in start then start[n] else make(n, file[n])
    {
      var name :| name in rest;
      rest := rest - {name};
      if !valid(name, file[name]) {
        return Err;
      }
      if name in byName {
        continue;
      }
      byName := byName[name := make(name, file[name])];
    }
    r := Ok(byName);
  }

  method ParseWith(file: map<string, Entry>, valid: Check, make: Maker) returns (r: Result<seq<Server>>)
    requires Named(make)
    ensures r.Err? <==> !AllPass(file, valid)
    ensures r.Ok? ==> IsFirst(r.value, Table(file, make), MAX_SERVERS)
  {
    var table := AddEntries(map[], file, valid, make);
    if table.Err? {
      return Err;
    }
    assert table.value == Table(file, make);
    var servers := SortAndTruncate(table.value);
    r := Ok(servers);
  }

  /** The workspace file: the first sixteen of its servers, or an error if any entry is bad. */
  method ParseConfig(file: map<string, Entry>) returns (r: Result<seq<Server>>)
    ensures r.Err? <==> !AllValid(file)
    ensures r.Ok? ==> IsFirst(r.value, Table(file, ServerFor), MAX_SERVERS)
    ensures r.Err? <==> !AllAcceptable(file)
    ensures r.Ok? ==> FirstNames(NamesOf(r.value), file.Keys, 16)
    ensures r.Ok? ==> forall i :: 0 <= i < |r.value| ==>
      r.value[i].name in file && Carries(r.value[i], file[r.value[i].name], file[r.value[i].name].enabled)
  {
    r := ParseWith(file, ValidEntry, ServerFor);
    AllAcceptableExactly(file);
    if r.Ok? {
      ParsedCarry(file, r.value);
    }
  }

  lemma ParsedCarry(file: map<string, Entry>, servers: seq<Server>)
    requires IsFirst(servers, Table(file, ServerFor), MAX_SERVERS)
    ensures FirstNames(NamesOf(servers), file.Keys, 16)
    ensures forall i :: 0 <= i < |servers| ==>
      servers[i].name in file && Carries(servers[i], file[servers[i].name], file[servers[i].name].enabled)
  {
    assert Table(file, ServerFor).Keys == file.Keys;
    forall i | 0 <= i < |servers|
      ensures servers[i].name in file && Carries(servers[i], file[servers[i].name], file[servers[i].name].enabled)
    {
      assert servers[i] == Table(file, ServerFor)[servers[i].name];
    }
  }

  // ---------- the merge ----------

  /** Every server of both files, the workspace entry winning. */
  function Merged(workspace: map<string, Entry>, user: map<string, Entry>, plain: Maker,
                  tune: Server -> Server, make: Maker): (r: map<string, Server>)
  {
    map n | n in workspace.Keys + user.Keys ::
      if n in workspace then tune(plain(n, workspace[n])) else make(n, user[n])
  }

  /** The same with each server's enablement under its own override. */
  function FullTable(workspace: map<string, Entry>, user: map<string, Entry>,
                     overrides: map<string, bool>): (r: map<string, Server>)
  {
    Merged(workspace, user, ServerFor, WithWorkspaceOverride(overrides), UserServer(overrides))
  }

  method LoadEffective(workspace: map<string, Entry>, user: map<string, Entry>, overrides: map<string, bool>)
      returns (r: Result<seq<Server>>)
    ensures r.Err? <==> !AllValid(workspace) || !AllValid(user)
    ensures r.Ok? ==> IsFirst(r.value, FullTable(workspace, user, overrides), MAX_SERVERS)
    ensures r.Err? <==> !AllAcceptable(workspace) || !AllAcceptable(user)
    ensures r.Ok? ==> FirstNames(NamesOf(r.value), workspace.Keys + user.Keys, 16)
    ensures r.Ok? ==> forall i :: 0 <= i < |r.value| ==> FromFiles(r.value[i], workspace, user, overrides)
  {
    AllAcceptableExactly(workspace);
    AllAcceptableExactly(user);
    var parsed := ParseConfig(workspace);
    if parsed.Err? {
      return Err;
    }
    var merged := MergeUser(parsed.value, user, ValidEntry, WithWorkspaceOverride(overrides), UserServer(overrides),
                            workspace, ServerFor);
    r := merged;
    if r.Ok? {
      EffectiveCarry(workspace, user, overrides, r.value);
    }
  }

  lemma OverrideKeys(name: string)
    ensures "workspace" + ":" + name == "workspace:" + name && "user" + ":" + name == "user:" + name
  {}

  lemma FullEntry(workspace: map<string, Entry>, user: map<string, Entry>, overrides: map<string, bool>, name: string)
    requires name in FullTable(workspace, user, overrides)
    ensures var s := FullTable(workspace, user, overrides)[name];
            s.name == name && FromFiles(s, workspace, user, overrides)
  {
    OverrideKeys(name);
  }

  lemma EffectiveCarry(workspace: map<string, Entry>, user: map<string, Entry>, overrides: map<string, bool>,
                       servers: seq<Server>)
    requires IsFirst(servers, FullTable(workspace, user, overrides), MAX_SERVERS)
    ensures FirstNames(NamesOf(servers), workspace.Keys + user.Keys, 16)
    ensures forall i :: 0 <= i < |servers| ==> FromFiles(servers[i], workspace, user, overrides)
  {
    assert FullTable(workspace, user, overrides).Keys == workspace.Keys + user.Keys;
    forall i | 0 <= i < |servers| ensures FromFiles(servers[i], workspace, user, overrides) {
      FullEntry(workspace, user, overrides, servers[i].name);
    }
  }

  /** Applies the workspace overrides, adds the user's servers, sorts and truncates again. */
  method MergeUser(parsed: seq<Server>, user: map<string, Entry>, valid: Check, tune: Server -> Server, make: Maker,
                   ghost workspace: map<string, Entry>, ghost plain: Maker) returns (r: Result<seq<Server>>)
    requires Named(make) && (forall s :: tune(s).name == s.name)
    requires IsFirst(parsed, Table(workspace, plain), MAX_SERVERS)
    ensures r.Err? <==> !AllPass(user, valid)
    ensures r.Ok? ==> IsFirst(r.value, Merged(workspace, user, plain, tune, make), MAX_SERVERS)
  {
    var byName := WorkspaceTable(parsed, tune);
    var merged := AddEntries(byName, user, valid, make);
    if merged.Err? {
      return Err;
    }
    var servers := SortAndTruncate(merged.value);
    MergeIsFull(workspace, user, plain, tune, make, parsed, byName, merged.value, servers);
    r := Ok(servers);
  }

  /** The parsed workspace servers by name, each adjusted. */
  method WorkspaceTable(servers: seq<Server>, tune: Server -> Server) returns (byName: map<string, Server>)
    requires Ascending(NamesOf(servers))
    ensures forall n :: n in byName <==> n in NamesOf(servers)
    ensures forall i :: 0 <= i < |servers| ==> servers[i].name in byName && byName[servers[i].name] == tune(servers[i])
  {
    byName := map[];
    var names := NamesOf(servers);
    for i := 0 to |servers|
      invariant forall n :: n in byName <==> n in names[..i]
      invariant forall j :: 0 <= j < i ==> servers[j].name in byName && byName[servers[j].name] == tune(servers[j])
    {
      forall j | 0 <= j < i ensures servers[j].name != servers[i].name {
        assert Less(names[j], names[i]);
        LessIrreflexive(names[i]);
      }
      assert names[..i + 1] == names[..i] + [names[i]];
      byName := byName[servers[i].name := tune(servers[i])];
    }
    assert names[..|servers|] == names;
  }

  /** What the truncated merge lists is what the full table lists. */
  lemma MergeIsFull(workspace: map<string, Entry>, user: map<string, Entry>, plain: Maker, tune: Server -> Server,
                    make: Maker,
                    parsed: seq<Server>, byName: map<string, Server>, merged: map<string, Server>, servers: seq<Server>)
    requires IsFirst(parsed, Table(workspace, plain), MAX_SERVERS)
    requires forall n :: n in byName <==> n in NamesOf(parsed)
    requires forall i :: 0 <= i < |parsed| ==> parsed[i].name in byName && byName[parsed[i].name] == tune(parsed[i])
    requires merged.Keys == byName.Keys + user.Keys
    requires forall n :: n in merged ==> merged[n] == if n in byName then byName[n] else make(n, user[n])
    requires IsFirst(servers, merged, MAX_SERVERS)
    ensures IsFirst(servers, Merged(workspace, user, plain, tune, make), MAX_SERVERS)
  {
    var full := Merged(workspace, user, plain, tune, make);
    var kept := NamesOf(parsed);
    assert Table(workspace, plain).Keys == workspace.Keys && full.Keys == workspace.Keys + user.Keys;
    assert merged.Keys == (set n | n in kept) + user.Keys;
    TruncationLosesNothing(kept, workspace.Keys, user.Keys, NamesOf(servers));
    forall i | 0 <= i < |servers|
      ensures servers[i].name in full && full[servers[i].name] == servers[i]
    {
      assert NamesOf(servers)[i] in NamesOf(servers);
      if servers[i].name in workspace {
        KeptServer(workspace, plain, tune, parsed, byName, servers[i].name);
      }
    }
  }

  lemma KeptServer(workspace: map<string, Entry>, plain: Maker, tune: Server -> Server, parsed: seq<Server>,
                   byName: map<string, Server>, n: string)
    requires IsFirst(parsed, Table(workspace, plain), MAX_SERVERS) && n in NamesOf(parsed)
    requires forall i :: 0 <= i < |parsed| ==> parsed[i].name in byName && byName[parsed[i].name] == tune(parsed[i])
    ensures n in workspace && n in byName && byName[n] == tune(plain(n, workspace[n]))
  {
    var j :| 0 <= j < |parsed| && NamesOf(parsed)[j] == n;
    assert parsed[j] == Table(workspace, plain)[n];
  }

  // ---------- why truncating twice is safe ----------

  lemma {:induction false} AscendingSize(names: seq<string>)
    requires Ascending(names)
    ensures |(set n | n in names)| == |names|
  {
    if names == [] {
      assert (set n | n in names) == {};
    } else {
      TailMembers(names);
      AscendingSize(names[1..]);
      assert (set n | n in names) == {names[0]} + (set n | n in names[1..]);
    }
  }

  /** More names than fit cannot all be listed. */
  lemma TooMany(names: seq<string>, some: seq<string>, extra: string)
    requires Ascending(names) && Ascending(some)
    requires extra in names && extra !in some && forall n :: n in some ==> n in names
    ensures |names| > |some|
  {
    AscendingSize(names);
    AscendingSize(some);
    var inner := set n | n in some;
    var outer := set n | n in names;
    assert inner + {extra} <= outer;
    assert outer == (inner + {extra}) + (outer - (inner + {extra}));
  }

  lemma ListsFit(names: seq<string>, some: seq<string>)
    requires Ascending(names) && Ascending(some) && forall n :: n in some ==> n in names
    ensures |some| <= |names|
  {
    AscendingSize(names);
    AscendingSize(some);
    var inner := set n | n in some;
    var outer := set n | n in names;
    assert outer == inner + (outer - inner);
  }

  /** A workspace name that was cut off cannot come back among the first sixteen, nor precede
      one of them. */
  lemma CutOffStaysOut(kept: seq<string>, keys: set<string>, names: seq<string>, table: set<string>, k: string,
                       x: string)
    requires FirstNames(kept, keys, MAX_SERVERS) && FirstNames(names, table, MAX_SERVERS)
    requires k in keys && k !in kept
    requires forall n :: n in kept ==> n in table
    requires x in names
    ensures x != k && Less(x, k)
  {
    assert |kept| == MAX_SERVERS;
    LessTotal(x, k);
    if x == k || Less(k, x) {
      forall n | n in kept ensures n in names && n != x {
        assert Less(n, k);
        if x != k { LessTransitive(n, k, x); }
        LessTotal(n, x);
        assert n in names || Less(x, n);
      }
      TooMany(names, kept, x);
      assert false;
    }
  }

  /** Cutting the workspace list to sixteen before merging loses nothing: the first sixteen of
      what is left are the first sixteen of everything, and none of them is a name whose
      workspace entry was cut off. */
  lemma TruncationLosesNothing(kept: seq<string>, workspace: set<string>, user: set<string>, names: seq<string>)
    requires FirstNames(kept, workspace, MAX_SERVERS)
    requires FirstNames(names, (set n | n in kept) + user, MAX_SERVERS)
    ensures FirstNames(names, workspace + user, MAX_SERVERS)
    ensures forall n :: n in names && n in workspace ==> n in kept
  {
    var table := (set n | n in kept) + user;
    forall n | n in names && n in workspace
      ensures n in kept
    {
      if n !in kept {
        CutOffStaysOut(kept, workspace, names, table, n, n);
        assert false;
      }
    }
    forall k, n | k in workspace + user && k !in names && n in names
      ensures Less(n, k)
    {
      if k !in table {
        CutOffStaysOut(kept, workspace, names, table, k, n);
      }
    }
    if |names| < MAX_SERVERS {
      forall k | k in workspace + user
        ensures k in names
      {
        if k !in table {
          ListsFit(names, kept);
          assert false;
        }
      }
    }
  }

  // ---------- tool names ----------

  function EncodeToolName(server: string, tool: string): (r: string) {
    "mcp__" + server + "__" + tool
  }

  function DecodeToolName(name: string): (r: Option<(string, string)>) {
    if !StartsWith(name, "mcp__") then None
    else
      var rest := name[5..];
      var i := IndexOf(rest, "__");
      if i < 0 then None
      else
        var server, tool := rest[..i], rest[i + 2..];
        if server == "" || tool == "" || !IsValidName(server) then None else Some((server, tool))
  }

  /** A tool name decodes to what it was made from exactly when the server name is valid, the
      tool is named, and no two underscores meet inside the server name or at its end. Server
      names with such underscores are accepted, and their tools are taken for another server's or
      for none. */
  lemma ToolNameRoundTrip(server: string, tool: string)
    ensures DecodeToolName(EncodeToolName(server, tool)) == Some((server, tool))
            <==> IsValidName(server) && tool != "" && !Contains(server + "_", "__")
  {
    var name := EncodeToolName(server, tool);
    var rest := server + "__" + tool;
    assert name[..5] == "mcp__" && name[5..] == rest;
    assert OccursAt(rest, "__", |server|);
    var i := IndexOf(rest, "__");
    assert 0 <= i <= |server|;
    forall k: nat | k < |server| ensures OccursAt(rest, "__", k) <==> OccursAt(server + "_", "__", k) {
      assert rest[k..k + 2] == (server + "_")[k..k + 2];
    }
    if i == |server| {
      assert rest[..i] == server && rest[i + 2..] == tool;
      assert forall k :: 0 <= k < |server| ==> !OccursAt(server + "_", "__", k);
    } else {
      assert OccursAt(server + "_", "__", i);
      assert |rest[..i]| < |server|;
    }
  }

  lemma DecodedParts(name: string, server: string, tool: string)
    requires DecodeToolName(name) == Some((server, tool))
    ensures name == EncodeToolName(server, tool) && IsValidName(server) && tool != ""
  {
    var rest := name[5..];
    var i := IndexOf(rest, "__");
    assert rest[i..i + 2] == "__";
    assert rest == server + "__" + tool;
    assert name == "mcp__" + rest;
  }

  /** A name decodes to a server and a tool if and only if it was made from them and the server's
      name is one that can be told apart. */
  lemma DecodeExactly(name: string, server: string, tool: string)
    ensures DecodeToolName(name) == Some((server, tool))
       <==> name == EncodeToolName(server, tool)
            && IsValidName(server) && tool != "" && !Contains(server + "_", "__")
  {
    ToolNameRoundTrip(server, tool);
    if DecodeToolName(name) == Some((server, tool)) {
      DecodedParts(name, server, tool);
    }
  }

  /** One name goes on with an underscore and ends, or goes on with two. */
  predicate GoesOn(short: string, long: string) {
    long == short + "_" || StartsWith(long, short + "__")
  }

  lemma SameSuffix(a: string, s: string, b: string, t: string)
    ensures EncodeToolName(a, s) == EncodeToolName(b, t) <==> a + ("__" + s) == b + ("__" + t)
  {
    var x, y := EncodeToolName(a, s), EncodeToolName(b, t);
    assert x[5..] == a + ("__" + s) && y[5..] == b + ("__" + t);
    assert x == "mcp__" + (a + ("__" + s)) && y == "mcp__" + (b + ("__" + t));
  }

  lemma LongerGoesOn(a: string, s: string, b: string, t: string)
    requires a + ("__" + s) == b + ("__" + t) && |a| < |b|
    ensures GoesOn(a, b)
  {
    var x, y := a + ("__" + s), b + ("__" + t);
    assert b[..|a|] == y[..|a|] == x[..|a|] == a;
    assert b[|a|] == y[|a|] == x[|a|] == '_';
    if |b| == |a| + 1 {
      assert b == a + "_";
    } else {
      assert b[|a| + 1] == y[|a| + 1] == x[|a| + 1] == '_';
      assert b[..|a| + 2] == a + "__";
    }
  }

  lemma SameLength(a: string, s: string, b: string, t: string)
    requires a + ("__" + s) == b + ("__" + t) && |a| == |b|
    ensures a == b && s == t
  {
    var x, y := a + ("__" + s), b + ("__" + t);
    assert a == x[..|a|] && b == y[..|b|] && s == x[|a| + 2..] && t == y[|b| + 2..];
  }

  /** Tools that make the two servers offer the same name. */
  lemma Colliding(a: string, b: string) returns (s: string, t: string)
    requires GoesOn(a, b)
    ensures s != "" && t != "" && EncodeToolName(a, s) == EncodeToolName(b, t)
  {
    t := "t";
    if b == a + "_" {
      s := "_t";
      assert a + ("__" + s) == b + ("__" + t);
    } else {
      var rest := b[|a| + 2..];
      s := rest + "__t";
      assert b == a + "__" + rest;
      assert a + ("__" + s) == b + ("__" + t);
    }
    SameSuffix(a, s, b, t);
  }

  /** Two servers can offer the same tool name if and only if one's name is the other's and goes
      on with one underscore to its end, or with two. */
  lemma ToolNamesCollideExactly(a: string, b: string)
    requires a != b
    ensures (exists s, t :: s != "" && t != "" && EncodeToolName(a, s) == EncodeToolName(b, t))
       <==> GoesOn(a, b) || GoesOn(b, a)
  {
    if GoesOn(a, b) {
      var s, t := Colliding(a, b);
    } else if GoesOn(b, a) {
      var t, s := Colliding(b, a);
    }
    forall s, t | EncodeToolName(a, s) == EncodeToolName(b, t)
      ensures GoesOn(a, b) || GoesOn(b, a)
    {
      ToolNamesDistinct(a, s, b, t);
    }
  }

  /** In no other case, be it of one server or of two, does a tool name stand for two tools. */
  lemma ToolNamesDistinct(a: string, s: string, b: string, t: string)
    requires EncodeToolName(a, s) == EncodeToolName(b, t)
    ensures (a == b && s == t) || GoesOn(a, b) || GoesOn(b, a)
  {
    SameSuffix(a, s, b, t);
    if |a| < |b| {
      LongerGoesOn(a, s, b, t);
    } else if |b| < |a| {
      LongerGoesOn(b, t, a, s);
    } else {
      SameLength(a, s, b, t);
    }
  }

  /** Two accepted servers that do. */
  lemma ToolNamesCanCollide()
    ensures IsValidName("a") && IsValidName("a__b")
    ensures EncodeToolName("a", "b__c") == EncodeToolName("a__b", "c")
  {
    assert forall i :: 0 <= i < |"a__b"| ==> "a__b"[i] in {'a', '_', 'b'};
    assert EncodeToolName("a", "b__c") == "mcp__a__b__c";
    assert EncodeToolName("a__b", "c") == "mcp__a__b__c";
  }
}
