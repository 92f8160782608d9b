/** The `-c` overrides that put a set of MCP servers in front of Codex, and the environment that
carries their bearer tokens.

The overrides are read back by a reader of "dotted.key=value", so what is proved is about what
Codex is told, not about the text it is told in.
*/
module McpOverrides {
  import opened Optional
  import opened Toml
  import opened WhiteSpace

  datatype Transport =
    | Stdio(command: Option<string>, args: Option<seq<string>>, env: seq<Entry>)
    | Http(url: Option<string>, headers: seq<Entry>)

  datatype Server = Server(name: string, transport: Transport)

  datatype Value = Text(text: string) | Texts(texts: seq<string>) | Table(entries: seq<Entry>)

  datatype Override = Override(path: seq<string>, value: Value)

  // ----- What the regular expressions of the source accept

  predicate IsNameStart(c: char) {
    'a' <= c <= 'z' || '0' <= c <= '9'
  }

  predicate IsNameRest(c: char) {
    IsNameStart(c) || c == '_' || c == '-'
  }

  /** One to sixty-four characters, the first a letter or digit. */
  predicate IsServerName(name: string) {
    && 1 <= |name| <= 64
    && IsNameStart(name[0])
    && forall i :: 1 <= i < |name| ==> IsNameRest(name[i])
  }

  const BEARER := "Bearer"

  /** The token of a header reading "Bearer", white space, then one word. */
  function BearerToken(header: string): Option<string> {
    if !(BEARER <= header) then None
    else
      var rest := header[|BEARER|..];
      var token := TrimStart(rest);
      if token == "" || token == rest || !HasNoSpace(token) then None else Some(token)
  }

  /** "Bearer", some white space, one word. */
  predicate Reads(header: string, gap: string, token: string) {
    gap != "" && IsBlank(gap) && token != "" && HasNoSpace(token) && header == BEARER + gap + token
  }

  lemma {:induction false} BearerTokenIsRead(header: string) returns (gap: string)
    requires BearerToken(header).Some?
    ensures Reads(header, gap, BearerToken(header).value)
  {
    var rest := header[|BEARER|..];
    gap := TrimIsASuffix(rest);
    assert header == BEARER + rest == BEARER + gap + TrimStart(rest);
  }

  lemma {:induction false} BearerTokenIsTheOnly(header: string, gap: string, token: string)
    requires Reads(header, gap, token)
    ensures BearerToken(header) == Some(token)
  {
    var rest := header[|BEARER|..];
    assert header == BEARER + (gap + token) && rest == gap + token;
    TrimOfGap(gap, token);
  }

  /** The word found is the only way to read the header so. */
  lemma {:induction false} BearerTokenIff(header: string, token: string)
    ensures BearerToken(header) == Some(token) <==> exists gap :: Reads(header, gap, token)
  {
    hide BearerToken, Reads;
    if BearerToken(header) == Some(token) {
      var gap := BearerTokenIsRead(header);
    }
    forall gap | Reads(header, gap, token)
      ensures BearerToken(header) == Some(token)
    {
      BearerTokenIsTheOnly(header, gap, token);
    }
  }

  function Lower(s: string): string {
    seq(|s|, i requires 0 <= i < |s| => if 'A' <= s[i] <= 'Z' then (s[i] as int + 32) as char else s[i])
  }

  function UpperChar(c: char): char {
    if 'a' <= c <= 'z' then (c as int - 32) as char else if c == '-' then '_' else c
  }

  function Upper(s: string): string {
    seq(|s|, i requires 0 <= i < |s| => UpperChar(s[i]))
  }

  /** The environment variable minted for a server: upper-cased, dashes folded into underscores. */
  function Variable(name: string): string {
    "KUMI_MCP_" + Upper(name) + "_TOKEN"
  }

  // ----- What a server is refused for

  /** The token a server's headers carry, where they can be carried at all. */
  function Token(headers: seq<Entry>): Option<string> {
    if |headers| == 1 && Lower(headers[0].0) == "authorization" then BearerToken(headers[0].1) else None
  }

  /** Letter for letter, whatever their case. */
  predicate SameIgnoringCase(s: string, lower: string) {
    |s| == |lower| && forall i :: 0 <= i < |s| ==>
      s[i] == lower[i] || ('A' <= s[i] <= 'Z' && s[i] as int + 32 == lower[i] as int)
  }

  /** A token is found exactly in the one header that is an authorization by a bearer. */
  lemma TokenIff(headers: seq<Entry>, token: string)
    ensures Token(headers) == Some(token)
            <==> |headers| == 1 && SameIgnoringCase(headers[0].0, "authorization")
                 && exists gap :: Reads(headers[0].1, gap, token)
  {
    hide BearerToken, Reads;
    if |headers| == 1 {
      BearerTokenIff(headers[0].1, token);
      LowerIs(headers[0].0, "authorization");
    }
  }

  lemma LowerIs(s: string, lower: string)
    requires forall i :: 0 <= i < |lower| ==> 'a' <= lower[i] <= 'z'
    ensures Lower(s) == lower <==> SameIgnoringCase(s, lower)
  {
    if SameIgnoringCase(s, lower) {
      assert forall i :: 0 <= i < |s| ==> Lower(s)[i] == lower[i];
    }
    if Lower(s) == lower {
      assert forall i :: 0 <= i < |s| ==> Lower(s)[i] == lower[i];
    }
  }

  /** A server's name is a key that needs no quotes, of at most sixty-four characters, in lower case. */
  lemma ServerNameIff(name: string)
    ensures IsServerName(name)
            <==> && IsBareKey(name) && |name| <= 64 && name[0] != '-' && name[0] != '_'
                 && forall i :: 0 <= i < |name| ==> !('A' <= name[i] <= 'Z')
  {
    if IsServerName(name) {
      assert forall i :: 0 <= i < |name| ==> IsNameRest(name[i]);
    }
  }

  predicate Bears(s: Server) {
    s.transport.Http? && s.transport.headers != []
  }

  predicate Filled(s: Option<string>) {
    s.Some? && !IsBlank(s.value)
  }

  /** A server Codex can be given on its own. */
  predicate Carriable(s: Server) {
    && IsServerName(s.name)
    && match s.transport
       case Stdio(command, _, _) => Filled(command)
       case Http(url, headers) => Filled(url) && (headers == [] || Token(headers).Some?)
  }

  /** What a server must be for Codex to be given it. */
  lemma CarriableIff(s: Server)
    ensures Carriable(s)
            <==> && IsServerName(s.name)
                 && (s.transport.Stdio? ==> s.transport.command.Some? && !IsBlank(s.transport.command.value))
                 && (s.transport.Http? ==>
                       && s.transport.url.Some? && !IsBlank(s.transport.url.value)
                       && (s.transport.headers == [] || exists token :: Token(s.transport.headers) == Some(token)))
  {
  }

  predicate SameVariable(s: Server, t: Server) {
    Bears(s) && Bears(t) && Variable(s.name) == Variable(t.name)
  }

  /** Every server carriable, no name twice, no variable shared by two that bear tokens. */
  ghost predicate Acceptable(servers: seq<Server>) {
    && (forall i :: 0 <= i < |servers| ==> Carriable(servers[i]))
    && (forall i, j :: 0 <= i < j < |servers| ==> servers[i].name != servers[j].name)
    && (forall i, j :: 0 <= i < j < |servers| ==> !SameVariable(servers[i], servers[j]))
  }

  // ----- What Codex is told

  function Told(s: Server): seq<Override> {
    match s.transport
    case Stdio(command, args, env) =>
      (if command.Some? then [Override(["mcp_servers", s.name, "command"], Text(command.value))] else [])
      + (if args.Some? then [Override(["mcp_servers", s.name, "args"], Texts(args.value))] else [])
      + (if env != [] then [Override(["mcp_servers", s.name, "env"], Table(env))] else [])
    case Http(url, headers) =>
      (if url.Some? then [Override(["mcp_servers", s.name, "url"], Text(url.value))] else [])
      + (if headers != [] then [Override(["mcp_servers", s.name, "bearer_token_env_var"], Text(Variable(s.name)))] else [])
  }

  function AllTold(servers: seq<Server>): seq<Override> {
    if servers == [] then [] else AllTold(servers[..|servers| - 1]) + Told(servers[|servers| - 1])
  }

  /** What a setting of a server is meant to be, by its key. */
  function Meant(s: Server, key: string): Option<Value> {
    match s.transport
    case Stdio(command, args, env) =>
      if key == "command" && command.Some? then Some(Text(command.value))
      else if key == "args" && args.Some? then Some(Texts(args.value))
      else if key == "env" && env != [] then Some(Table(env))
      else None
    case Http(url, headers) =>
      if key == "url" && url.Some? then Some(Text(url.value))
      else if key == "bearer_token_env_var" && headers != [] then Some(Text(Variable(s.name)))
      else None
  }

  predicate IsSetting(s: Server, o: Override) {
    |o.path| == 3 && o.path[0] == "mcp_servers" && o.path[1] == s.name && Meant(s, o.path[2]) == Some(o.value)
  }

  lemma ToldOne(s: Server, o: Override)
    ensures o in Told(s) <==> IsSetting(s, o)
  {
    if IsSetting(s, o) {
      assert o == Override(["mcp_servers", s.name, o.path[2]], o.value);
    }
  }

  /** Codex is told each setting of each server, under the server's own name, and nothing else. */
  lemma {:induction false} ToldIff(servers: seq<Server>, o: Override)
    ensures o in AllTold(servers) <==> exists i :: 0 <= i < |servers| && IsSetting(servers[i], o)
  {
    hide Told, IsSetting, Meant;
    if servers != [] {
      var init, last := servers[..|servers| - 1], servers[|servers| - 1];
      ToldIff(init, o);
      ToldOne(last, o);
      if i :| 0 <= i < |init| && IsSetting(init[i], o) {
        assert IsSetting(servers[i], o);
      }
      if i :| 0 <= i < |servers| && IsSetting(servers[i], o) {
        assert i < |init| ==> IsSetting(init[i], o);
      }
    }
  }

  /** A minted variable is a name an environment can hold, and two servers share one exactly when their
      names differ in nothing but dashes and underscores. */
  lemma VariablesDifferIff(a: string, b: string)
    requires IsServerName(a) && IsServerName(b)
    ensures forall i :: 0 <= i < |Variable(a)| ==> IsVariableChar(Variable(a)[i])
    ensures Variable(a) == Variable(b) <==> |a| == |b| && forall i :: 0 <= i < |a| ==> SameFolded(a[i], b[i])
  {
    UpperOnly(a);
    FoldedAs(a, b);
    hide Upper, IsServerName;
    var p, q := "KUMI_MCP_", "_TOKEN";
    assert Variable(a) == p + (Upper(a) + q) && Variable(b) == p + (Upper(b) + q);
    assert Variable(a)[|p|..|Variable(a)| - |q|] == Upper(a) && Variable(b)[|p|..|Variable(b)| - |q|] == Upper(b);
  }

  predicate IsVariableChar(c: char) {
    'A' <= c <= 'Z' || '0' <= c <= '9' || c == '_'
  }

  predicate SameFolded(c: char, d: char) {
    c == d || (c in "-_" && d in "-_")
  }

  lemma UpperOnly(a: string)
    requires IsServerName(a)
    ensures forall i :: 0 <= i < |Upper(a)| ==> IsVariableChar(Upper(a)[i])
  {
  }

  lemma FoldedAs(a: string, b: string)
    requires IsServerName(a) && IsServerName(b)
    ensures Upper(a) == Upper(b) <==> |a| == |b| && forall i :: 0 <= i < |a| ==> SameFolded(a[i], b[i])
  {
    if |a| == |b| {
      forall i | 0 <= i < |a| ensures Upper(a)[i] == Upper(b)[i] <==> SameFolded(a[i], b[i]) {
        assert IsNameRest(a[i]) && IsNameRest(b[i]);
      }
    }
  }

  function PrintPath(path: seq<string>): string {
    if path == [] then ""
    else if |path| == 1 then path[0]
    else path[0] + "." + PrintPath(path[1..])
  }

  function PrintValue(v: Value): string {
    match v
    case Text(text) => PrintString(text)
    case Texts(texts) => PrintArray(texts)
    case Table(entries) => PrintTable(entries)
  }

  function PrintOverride(o: Override): string {
    PrintPath(o.path) + "=" + PrintValue(o.value)
  }

  /** Each override is two words: the flag, then "key=value". */
  function PrintArgs(told: seq<Override>): seq<string> {
    if told == [] then [] else PrintArgs(told[..|told| - 1]) + ["-c", PrintOverride(told[|told| - 1])]
  }

  // ----- Reading it back

  /** A dotted key of bare parts, up to its equals sign. */
  function ReadPath(s: string): (r: Option<(seq<string>, string)>)
    decreases |s|
  {
    var k := ReadBareKey(s);
    if k.None? || k.value.1 == "" then None
    else if k.value.1[0] == '=' then Some(([k.value.0], k.value.1[1..]))
    else if k.value.1[0] != '.' then None
    else
      var rest := ReadPath(k.value.1[1..]);
      if rest.None? then None else Some(([k.value.0] + rest.value.0, rest.value.1))
  }

  /** A whole value with nothing after it. */
  function ReadValue(s: string): Option<Value> {
    if s == "" then None
    else if s[0] == '[' then
      var r := ReadArray(s);
      if r.Some? && r.value.1 == "" then Some(Texts(r.value.0)) else None
    else if s[0] == '{' then
      var r := ReadTable(s);
      if r.Some? && r.value.1 == "" then Some(Table(r.value.0)) else None
    else
      var r := ReadString(s);
      if r.Some? && r.value.1 == "" then Some(Text(r.value.0)) else None
  }

  function ReadOverride(s: string): Option<Override> {
    var path := ReadPath(s);
    if path.None? then None
    else
      var value := ReadValue(path.value.1);
      if value.None? then None else Some(Override(path.value.0, value.value))
  }

  function ReadArgs(args: seq<string>): Option<seq<Override>> {
    if args == [] then Some([])
    else if |args| == 1 || args[|args| - 2] != "-c" then None
    else
      var before, last := ReadArgs(args[..|args| - 2]), ReadOverride(args[|args| - 1]);
      if before.None? || last.None? then None else Some(before.value + [last.value])
  }

  ghost predicate Readable(o: Override) {
    && o.path != [] && (forall i :: 0 <= i < |o.path| ==> IsBareKey(o.path[i]))
    && (o.value.Table? ==> DistinctKeys(o.value.entries))
  }

  lemma PathOne(path: seq<string>, rest: string)
    requires |path| == 1 && IsBareKey(path[0])
    ensures ReadPath(PrintPath(path) + "=" + rest) == Some((path, rest))
  {
    hide ReadBareKey, IsBareKey;
    assert PrintPath(path) + "=" + rest == path[0] + ("=" + rest);
    BareKeyReadsBack(path[0], "=" + rest);
    assert ("=" + rest)[1..] == rest;
    assert path == [path[0]];
  }

  lemma PathFirst(key: string, tail: string)
    requires IsBareKey(key) && ReadPath(tail).Some?
    ensures ReadPath(key + "." + tail) == Some(([key] + ReadPath(tail).value.0, ReadPath(tail).value.1))
  {
    hide ReadBareKey, IsBareKey;
    assert key + "." + tail == key + ("." + tail);
    BareKeyReadsBack(key, "." + tail);
    assert ("." + tail)[1..] == tail;
  }

  lemma {:induction false} PathReadsBack(path: seq<string>, rest: string)
    requires path != [] && forall i :: 0 <= i < |path| ==> IsBareKey(path[i])
    ensures ReadPath(PrintPath(path) + "=" + rest) == Some((path, rest))
    decreases |path|
  {
    hide IsBareKey, ReadPath;
    if |path| == 1 {
      PathOne(path, rest);
    } else {
      PathReadsBack(path[1..], rest);
      var tail := PrintPath(path[1..]) + "=" + rest;
      PathFirst(path[0], tail);
      assert PrintPath(path) + "=" + rest == path[0] + "." + tail;
      assert path == [path[0]] + path[1..];
    }
  }

  lemma ValueReadsBack(v: Value)
    requires v.Table? ==> DistinctKeys(v.entries)
    ensures ReadValue(PrintValue(v)) == Some(v)
  {
    assert PrintValue(v) + "" == PrintValue(v);
    match v
    case Text(text) => StringReadsBack(text, "");
    case Texts(texts) => ArrayReadsBack(texts, "");
    case Table(entries) => TableReadsBack(entries, "");
  }

  /** What is printed is what is read. */
  lemma {:induction false} OverrideReadsBack(o: Override)
    requires Readable(o)
    ensures ReadOverride(PrintOverride(o)) == Some(o)
  {
    PathReadsBack(o.path, PrintValue(o.value));
    ValueReadsBack(o.value);
  }

  ghost predicate AllReadable(told: seq<Override>) {
    forall i :: 0 <= i < |told| ==> Readable(told[i])
  }

  lemma {:induction false} ArgsReadBack(told: seq<Override>)
    requires AllReadable(told)
    ensures ReadArgs(PrintArgs(told)) == Some(told)
    decreases |told|
  {
    hide ReadOverride, PrintOverride, Readable;
    if told != [] {
      var init, last := told[..|told| - 1], told[|told| - 1];
      ArgsReadBack(init);
      OverrideReadsBack(last);
      var args := PrintArgs(told);
      assert args[..|args| - 2] == PrintArgs(init);
      assert told == init + [last];
    }
  }

  // ----- The overrides

  datatype Fault = BadName | OfferedTwice | NoCommand | NoUrl | OtherHeaders | SharedVariable(holder: string)

  datatype Outcome =
    | Made(args: seq<string>, env: map<string, string>)
    | Refused(at: nat, fault: Fault)

  /** What a refusal of `s`, coming after `before`, says is wrong with it. */
  ghost predicate Explains(before: seq<Server>, s: Server, fault: Fault) {
    match fault
    case BadName => !IsServerName(s.name)
    case OfferedTwice => exists i :: 0 <= i < |before| && before[i].name == s.name
    case NoCommand => s.transport.Stdio? && !Filled(s.transport.command)
    case NoUrl => s.transport.Http? && !Filled(s.transport.url)
    case OtherHeaders => Bears(s) && Token(s.transport.headers).None?
    case SharedVariable(holder) => exists i :: 0 <= i < |before| && before[i].name == holder && SameVariable(before[i], s)
  }

  /** The environment holds one variable for each server that bears a token, set to that token. */
  ghost predicate EnvCarries(env: map<string, string>, servers: seq<Server>) {
    && (forall i :: 0 <= i < |servers| && Bears(servers[i]) ==>
          && Token(servers[i].transport.headers).Some?
          && Variable(servers[i].name) in env
          && env[Variable(servers[i].name)] == Token(servers[i].transport.headers).value)
    && (forall v :: v in env ==> exists i :: 0 <= i < |servers| && Bears(servers[i]) && Variable(servers[i].name) == v)
  }

  /** The names met, and which server each variable was minted for. */
  ghost predicate Met(seen: set<string>, variables: map<string, string>, servers: seq<Server>) {
    && (forall n :: n in seen <==> exists i :: 0 <= i < |servers| && servers[i].name == n)
    && (forall i :: 0 <= i < |servers| && Bears(servers[i]) ==> Variable(servers[i].name) in variables)
    && (forall v :: v in variables ==>
          exists i :: 0 <= i < |servers| && Bears(servers[i]) && Variable(servers[i].name) == v
                      && servers[i].name == variables[v])
  }

  ghost predicate Records(servers: seq<Server>) {
    forall i :: 0 <= i < |servers| && servers[i].transport.Stdio? ==> DistinctKeys(servers[i].transport.env)
  }

  lemma FieldIsReadable(name: string, field: string, value: Value)
    requires IsServerName(name) && IsBareKey(field) && (value.Table? ==> DistinctKeys(value.entries))
    ensures Readable(Override(["mcp_servers", name, field], value))
  {
    assert IsBareKey("mcp_servers") && IsBareKey(name);
  }

  lemma ToldIsReadable(s: Server)
    requires IsServerName(s.name) && (s.transport.Stdio? ==> DistinctKeys(s.transport.env))
    ensures AllReadable(Told(s))
  {
    match s.transport
    case Stdio(command, args, env) =>
      assert IsBareKey("command") && IsBareKey("args") && IsBareKey("env");
      FieldIsReadable(s.name, "command", Text(if command.Some? then command.value else ""));
      FieldIsReadable(s.name, "args", Texts(if args.Some? then args.value else []));
      FieldIsReadable(s.name, "env", Table(env));
    case Http(url, headers) =>
      assert IsBareKey("url") && IsBareKey("bearer_token_env_var");
      FieldIsReadable(s.name, "url", Text(if url.Some? then url.value else ""));
      FieldIsReadable(s.name, "bearer_token_env_var", Text(Variable(s.name)));
  }

  lemma {:induction false} AllToldIsReadable(servers: seq<Server>)
    requires Records(servers) && forall i :: 0 <= i < |servers| ==> IsServerName(servers[i].name)
    ensures AllReadable(AllTold(servers))
    decreases |servers|
  {
    if servers != [] {
      AllToldIsReadable(servers[..|servers| - 1]);
      ToldIsReadable(servers[|servers| - 1]);
    }
  }

  lemma PrintArgsOne(told: seq<Override>, o: Override)
    ensures PrintArgs(told + [o]) == PrintArgs(told) + ["-c", PrintOverride(o)]
  {
    assert (told + [o])[..|told|] == told;
  }

  lemma {:induction false} PrintArgsSplit(a: seq<Override>, b: seq<Override>)
    ensures PrintArgs(a + b) == PrintArgs(a) + PrintArgs(b)
    decreases |b|
  {
    if b == [] {
      assert a + b == a;
    } else {
      hide PrintArgs, PrintOverride;
      var init, last := b[..|b| - 1], b[|b| - 1];
      assert b == init + [last] && a + b == (a + init) + [last];
      PrintArgsOne(a + init, last);
      PrintArgsOne(init, last);
      PrintArgsSplit(a, init);
    }
  }

  lemma PrintedField(name: string, field: string, dotted: string, value: Value)
    requires dotted == "." + field + "="
    ensures PrintOverride(Override(["mcp_servers", name, field], value))
            == "mcp_servers." + name + dotted + PrintValue(value)
  {
    var path := ["mcp_servers", name, field];
    assert path[1..] == [name, field] && path[1..][1..] == [field];
    assert PrintPath([name, field]) == name + "." + field;
    assert PrintPath(path) == "mcp_servers" + "." + (name + "." + field);
    assert "mcp_servers." == "mcp_servers" + ".";
    assert PrintPath(path) + "=" == "mcp_servers." + name + dotted;
  }

  lemma Pushed(told: seq<Override>, name: string, field: string, dotted: string, value: Value)
    requires dotted == "." + field + "="
    ensures PrintArgs(told + [Override(["mcp_servers", name, field], value)])
            == PrintArgs(told) + ["-c", "mcp_servers." + name + dotted + PrintValue(value)]
  {
    PrintedField(name, field, dotted, value);
    PrintArgsOne(told, Override(["mcp_servers", name, field], value));
  }

  /** The words a stdio server puts on the command line, once it is known to be carriable. */
  method StdioWords(s: Server) returns (args: seq<string>)
    requires Carriable(s) && s.transport.Stdio?
    ensures args == PrintArgs(Told(s))
  {
    hide PrintOverride, PrintString, PrintArray, PrintTable, IsServerName, ReadString;
    var Stdio(command, extra, env) := s.transport;
    var key := "mcp_servers." + s.name;
    ghost var told: seq<Override> := [];
    var printed := TomlString(command.value);
    Pushed(told, s.name, "command", ".command=", Text(command.value));
    args := ["-c", key + ".command=" + printed];
    told := told + [Override(["mcp_servers", s.name, "command"], Text(command.value))];
    if extra.Some? {
      Pushed(told, s.name, "args", ".args=", Texts(extra.value));
      args := args + ["-c", key + ".args=" + PrintArray(extra.value)];
      told := told + [Override(["mcp_servers", s.name, "args"], Texts(extra.value))];
    }
    if env != [] {
      Pushed(told, s.name, "env", ".env=", Table(env));
      args := args + ["-c", key + ".env=" + PrintTable(env)];
      told := told + [Override(["mcp_servers", s.name, "env"], Table(env))];
    }
    assert told == Told(s);
  }

  method HttpWords(s: Server) returns (args: seq<string>)
    requires Carriable(s) && s.transport.Http?
    ensures args == PrintArgs(Told(s))
  {
    hide PrintOverride, PrintString, IsServerName, ReadString, Token, Variable;
    var Http(url, headers) := s.transport;
    var key := "mcp_servers." + s.name;
    ghost var told: seq<Override> := [];
    var printed := TomlString(url.value);
    Pushed(told, s.name, "url", ".url=", Text(url.value));
    args := ["-c", key + ".url=" + printed];
    told := told + [Override(["mcp_servers", s.name, "url"], Text(url.value))];
    if headers != [] {
      var named := TomlString(Variable(s.name));
      Pushed(told, s.name, "bearer_token_env_var", ".bearer_token_env_var=", Text(Variable(s.name)));
      args := args + ["-c", key + ".bearer_token_env_var=" + named];
      told := told + [Override(["mcp_servers", s.name, "bearer_token_env_var"], Text(Variable(s.name)))];
    }
    assert told == Told(s);
  }

  lemma AcceptableOne(before: seq<Server>, s: Server)
    requires Acceptable(before)
    ensures Acceptable(before + [s])
            <==> && Carriable(s)
                 && (forall i :: 0 <= i < |before| ==> before[i].name != s.name && !SameVariable(before[i], s))
  {
    var all := before + [s];
    assert forall i :: 0 <= i < |before| ==> all[i] == before[i];
    assert all[|before|] == s;
  }

  /** The fault of the first server that cannot be taken, or none. */
  method Check(ghost before: seq<Server>, s: Server, seen: set<string>, variables: map<string, string>)
    returns (fault: Option<Fault>)
    requires Acceptable(before) && Met(seen, variables, before)
    ensures fault.None? <==> Acceptable(before + [s])
    ensures fault.Some? ==> Explains(before, s, fault.value)
    ensures fault.None? ==>
              && Carriable(s) && s.name !in seen
              && (Bears(s) ==> Variable(s.name) !in variables && Token(s.transport.headers).Some?)
  {
    AcceptableOne(before, s);
    if !IsServerName(s.name) {
      return Some(BadName);
    }
    if s.name in seen {
      return Some(OfferedTwice);
    }
    match s.transport {
      case Stdio(command, _, _) =>
        if !Filled(command) {
          return Some(NoCommand);
        }
      case Http(url, headers) =>
        if !Filled(url) {
          return Some(NoUrl);
        }
        if headers != [] {
          if Token(headers).None? {
            return Some(OtherHeaders);
          }
          if Variable(s.name) in variables {
            return Some(SharedVariable(variables[Variable(s.name)]));
          }
        }
    }
    return None;
  }

  lemma MetOne(seen: set<string>, variables: map<string, string>, before: seq<Server>, s: Server)
    requires Met(seen, variables, before)
    requires Bears(s) ==> Variable(s.name) !in variables
    ensures Met(seen + {s.name}, if Bears(s) then variables[Variable(s.name) := s.name] else variables, before + [s])
  {
    var all := before + [s];
    assert forall i :: 0 <= i < |before| ==> all[i] == before[i];
    assert all[|before|] == s;
  }

  lemma EnvCarriesOne(env: map<string, string>, before: seq<Server>, s: Server)
    requires EnvCarries(env, before) && Acceptable(before + [s])
    requires Bears(s) ==> Token(s.transport.headers).Some?
    ensures EnvCarries(if Bears(s) then env[Variable(s.name) := Token(s.transport.headers).value] else env, before + [s])
  {
    hide Token, Variable, Carriable;
    var all := before + [s];
    assert forall i :: 0 <= i < |before| ==> all[i] == before[i];
    assert all[|before|] == s;
    assert forall i :: 0 <= i < |before| ==> !SameVariable(all[i], all[|before|]);
  }

  lemma PrefixRefused(servers: seq<Server>, at: nat)
    requires at < |servers| && !Acceptable(servers[..at + 1])
    ensures !Acceptable(servers)
  {
    var prefix := servers[..at + 1];
    assert forall i :: 0 <= i < |prefix| ==> prefix[i] == servers[i];
  }

  /** Where the loop stands after `before`. */
  ghost predicate Built(before: seq<Server>, args: seq<string>, env: map<string, string>, seen: set<string>,
                        variables: map<string, string>)
  {
    && Acceptable(before) && Met(seen, variables, before)
    && args == PrintArgs(AllTold(before)) && EnvCarries(env, before)
  }

  lemma BuiltOne(before: seq<Server>, args: seq<string>, env: map<string, string>, seen: set<string>,
                 variables: map<string, string>, s: Server)
    requires Built(before, args, env, seen, variables) && Acceptable(before + [s])
    requires Bears(s) ==> Variable(s.name) !in variables && Token(s.transport.headers).Some?
    ensures Built(before + [s], args + PrintArgs(Told(s)),
                  if Bears(s) then env[Variable(s.name) := Token(s.transport.headers).value] else env,
                  seen + {s.name}, if Bears(s) then variables[Variable(s.name) := s.name] else variables)
  {
    MetOne(seen, variables, before, s);
    EnvCarriesOne(env, before, s);
    PrintArgsSplit(AllTold(before), Told(s));
    assert (before + [s])[..|before|] == before;
  }

  lemma BuiltNone()
    ensures Built([], [], map[], {}, map[])
  {
  }

  lemma BuiltAll(servers: seq<Server>, args: seq<string>, env: map<string, string>, seen: set<string>,
                 variables: map<string, string>)
    requires Records(servers) && Built(servers, args, env, seen, variables)
    ensures ReadArgs(args) == Some(AllTold(servers))
  {
    hide Readable, EnvCarries, Met, ReadArgs, PrintArgs, AllTold;
    AllToldIsReadable(servers);
    ArgsReadBack(AllTold(servers));
  }

  /** The whole set is taken exactly when every server can be carried and no two collide; a refusal
      names the first server that spoils it, and why. What is taken is told whole and in order, and
      each bearer server's variable holds that server's own token. */
  method CodexMcpOverrides(servers: seq<Server>) returns (r: Outcome)
    requires Records(servers)
    ensures r.Made? <==> Acceptable(servers)
    ensures r.Made? ==> ReadArgs(r.args) == Some(AllTold(servers)) && EnvCarries(r.env, servers)
    ensures r.Refused? ==>
              && r.at < |servers| && Acceptable(servers[..r.at]) && !Acceptable(servers[..r.at + 1])
              && Explains(servers[..r.at], servers[r.at], r.fault)
  {
    hide Met, EnvCarries, Acceptable, AllTold, PrintArgs, ReadArgs, Told, Carriable, Token, Variable, Explains;
    var args: seq<string> := [];
    var env: map<string, string> := map[];
    var seen: set<string> := {};
    var variables: map<string, string> := map[];
    BuiltNone();
    assert servers[..0] == [];
    for i := 0 to |servers|
      invariant Built(servers[..i], args, env, seen, variables)
    {
      var server := servers[i];
      assert servers[..i + 1] == servers[..i] + [server];
      var fault := Check(servers[..i], server, seen, variables);
      if fault.Some? {
        PrefixRefused(servers, i);
        return Refused(i, fault.value);
      }
      AcceptableOne(servers[..i], server);
      BuiltOne(servers[..i], args, env, seen, variables, server);
      seen := seen + {server.name};
      if Bears(server) {
        variables := variables[Variable(server.name) := server.name];
        env := env[Variable(server.name) := Token(server.transport.headers).value];
      }
      var words;
      if server.transport.Stdio? {
        words := StdioWords(server);
      } else {
        words := HttpWords(server);
      }
      args := args + words;
    }
    assert servers[..|servers|] == servers;
    BuiltAll(servers, args, env, seen, variables);
    r := Made(args, env);
  }
}
