/** From a `/vpn/conn` response to an answer: the DNS configuration, the dynamic
    tables, the synthesised responses and the choice of an upstream path. */
module DnsPipeline {
  import opened Wrappers
  import opened Domains

  // ------------------------------------------------------------------
  // Configuration
  // ------------------------------------------------------------------

  datatype Entry = Entry(key: string, values: seq<string>)

  datatype Tables = Tables(
    exactV4: map<string, seq<string>>, exactV6: map<string, seq<string>>, wildcardV4: seq<Entry>, suffixV4: seq<Entry>)
  {
    predicate IsEmpty() {
      exactV4 == map[] && exactV6 == map[] && wildcardV4 == [] && suffixV4 == []
    }
  }

  datatype Config = Config(fullTunnel: bool, servers: seq<string>, split: set<string>, tables: Tables)

  /** Whether `accept_domain` keeps a value. `isAddress` stands for the parsers of
      IP and socket addresses. */
  predicate Accepts(raw: string, isAddress: string -> bool) {
    var domain := Normalize(raw);
    domain != "" && '/' !in domain && '.' in domain && !isAddress(domain)
  }

  /** The domain is one that the list gives. */
  ghost predicate Given(list: seq<string>, isAddress: string -> bool, domain: string) {
    exists raw :: raw in list && Accepts(raw, isAddress) && Normalize(raw) == domain
  }

  method AcceptDomains(list: seq<string>, isAddress: string -> bool) returns (split: set<string>)
    ensures forall d :: d in split <==> Given(list, isAddress, d)
  {
    split := {};
    for n := 0 to |list|
      invariant forall d :: d in split <==> Given(list[..n], isAddress, d)
    {
      var raw := list[n];
      ghost var done := list[..n];
      forall d ensures Given(done + [raw], isAddress, d) <==>
                       Given(done, isAddress, d) || (Accepts(raw, isAddress) && Normalize(raw) == d)
      {
        GivenAppend(done, raw, isAddress, d);
      }
      assert list[..n + 1] == done + [raw];
      if Accepts(raw, isAddress) {
        split := split + {Normalize(raw)};
      }
    }
    assert list[..|list|] == list;
  }

  lemma GivenAppend(list: seq<string>, raw: string, isAddress: string -> bool, domain: string)
    ensures Given(list + [raw], isAddress, domain) <==>
            Given(list, isAddress, domain) || (Accepts(raw, isAddress) && Normalize(raw) == domain)
  {
    var longer := list + [raw];
    assert raw in longer && forall r :: r in longer <==> r in list || r == raw;
  }

  function FlatMap<A, B>(items: seq<A>, f: A -> seq<B>): seq<B> {
    if items == [] then [] else f(items[0]) + FlatMap(items[1..], f)
  }

  lemma {:induction false} FlatMapAppend<A, B>(front: seq<A>, back: seq<A>, f: A -> seq<B>)
    ensures FlatMap(front + back, f) == FlatMap(front, f) + FlatMap(back, f)
  {
    if front == [] {
      assert front + back == back;
    } else {
      FlatMapAppend(front[1..], back, f);
      assert (front + back)[1..] == front[1..] + back && (front + back)[0] == front[0];
      Associates(f(front[0]), FlatMap(front[1..], f), FlatMap(back, f));
    }
  }

  lemma {:induction false} FlatMapExact<A, B>(items: seq<A>, f: A -> seq<B>, b: B)
    ensures b in FlatMap(items, f) <==> exists a :: a in items && b in f(a)
  {
    if items != [] {
      FlatMapExact(items[1..], f, b);
      assert forall a :: a in items <==> a == items[0] || a in items[1..];
    }
  }

  function Named(entry: Entry): seq<Entry> {
    var domain := Normalize(entry.key);
    if domain != "" then [Entry(domain, entry.values)] else []
  }

  /** `normalized_entries`: those with a name, under their normalised names. */
  function NormalizedEntries(entries: seq<Entry>): seq<Entry> {
    FlatMap(entries, Named)
  }

  /** Exactly the named entries are kept; `FlatMapAppend` says they stay in order. */
  lemma NormalizedEntriesExact(entries: seq<Entry>, kept: Entry)
    ensures kept in NormalizedEntries(entries) <==>
            kept.key != "" && exists e :: e in entries && Normalize(e.key) == kept.key && e.values == kept.values
  {
    FlatMapExact(entries, Named, kept);
    if e :| e in entries && Normalize(e.key) == kept.key && e.values == kept.values {
      assert kept.key != "" ==> kept in Named(e);
    }
  }

  /** What a split domain is: a normalised value of the list with a dot in it, no slash,
      and no address. */
  lemma GivenIff(list: seq<string>, isAddress: string -> bool, domain: string)
    ensures Given(list, isAddress, domain) <==>
            && '.' in domain && '/' !in domain && !isAddress(domain)
            && exists raw :: raw in list && Normalize(raw) == domain
  {
  }

  /** Every value given for a domain, in the order of the entries. */
  ghost function Gathered(entries: seq<Entry>, domain: string): seq<string> {
    if entries == [] then []
    else
      var last := entries[|entries| - 1];
      Gathered(entries[..|entries| - 1], domain) + if last.key == domain then last.values else []
  }

  ghost predicate Mentioned(entries: seq<Entry>, domain: string) {
    exists i :: 0 <= i < |entries| && entries[i].key == domain
  }

  /** What the exact v4 table says of one domain: entries of a domain are merged. */
  ghost predicate Cell(table: map<string, seq<string>>, entries: seq<Entry>, domain: string) {
    && (domain in table <==> Mentioned(entries, domain))
    && Gathered(entries, domain) == if domain in table then table[domain] else []
  }

  method MergeEntries(entries: seq<Entry>) returns (table: map<string, seq<string>>)
    ensures forall d :: Cell(table, entries, d)
  {
    table := map[];
    for n := 0 to |entries|
      invariant forall d :: Cell(table, entries[..n], d)
    {
      var domain := entries[n].key;
      ghost var before, done, longer := table, entries[..n], entries[..n] + [entries[n]];
      assert Cell(before, done, domain);
      table := table[domain := (if domain in table then table[domain] else []) + entries[n].values];
      assert entries[..n + 1] == longer;
      forall d ensures Cell(table, longer, d) {
        assert Cell(before, done, d);
        MentionedAppend(done, entries[n], d);
        GatheredAppend(done, entries[n], d);
      }
    }
    assert entries[..|entries|] == entries;
  }

  lemma GatheredAppend(entries: seq<Entry>, entry: Entry, domain: string)
    ensures Gathered(entries + [entry], domain) ==
            Gathered(entries, domain) + if entry.key == domain then entry.values else []
  {
    assert (entries + [entry])[..|entries|] == entries;
  }

  lemma MentionedAppend(entries: seq<Entry>, entry: Entry, domain: string)
    ensures Mentioned(entries + [entry], domain) <==> Mentioned(entries, domain) || entry.key == domain
  {
    var longer := entries + [entry];
    if Mentioned(entries, domain) {
      var i :| 0 <= i < |entries| && entries[i].key == domain;
      assert longer[i] == entries[i];
    }
    assert longer[|entries|] == entry;
  }

  /** The values that the last entry of a domain gives. */
  function LastOf(entries: seq<Entry>, domain: string): Option<seq<string>> {
    if entries == [] then None
    else
      var last := entries[|entries| - 1];
      if last.key == domain then Some(last.values) else LastOf(entries[..|entries| - 1], domain)
  }

  /** What the exact v6 table says of one domain: a later entry replaces an earlier. */
  ghost predicate LastCell(table: map<string, seq<string>>, entries: seq<Entry>, domain: string) {
    LastOf(entries, domain) == if domain in table then Some(table[domain]) else None
  }

  lemma {:induction false} LastOfIsLast(entries: seq<Entry>, domain: string)
    ensures LastOf(entries, domain).None? <==> forall i :: 0 <= i < |entries| ==> entries[i].key != domain
    ensures forall i :: 0 <= i < |entries| && entries[i].key == domain
                        && (forall j :: i < j < |entries| ==> entries[j].key != domain) ==>
              LastOf(entries, domain) == Some(entries[i].values)
  {
    if entries != [] {
      var init := entries[..|entries| - 1];
      LastOfIsLast(init, domain);
      assert forall i :: 0 <= i < |init| ==> init[i] == entries[i];
    }
  }

  method CollectEntries(entries: seq<Entry>) returns (table: map<string, seq<string>>)
    ensures forall d :: LastCell(table, entries, d)
  {
    table := map[];
    for n := 0 to |entries|
      invariant forall d :: LastCell(table, entries[..n], d)
    {
      ghost var before, done, longer := table, entries[..n], entries[..n] + [entries[n]];
      table := table[entries[n].key := entries[n].values];
      assert entries[..n + 1] == longer && longer[..n] == done;
      forall d ensures LastCell(table, longer, d) {
        assert LastCell(before, done, d);
      }
    }
    assert entries[..|entries|] == entries;
  }

  /** What a `/vpn/conn` response says about DNS; absent lists are empty. */
  datatype Setting = Setting(
    domainSplit: seq<string>, dynamicDomain: seq<Entry>, routeSplit: seq<Entry>, v6RouteSplit: seq<Entry>,
    wildcardRouteSplit: seq<Entry>, suffixRouteSplit: seq<Entry>)

  /** `from_vpn_conn`: both v4 maps merged, the v6 map with its last values, and the
      two scanned tables in order. */
  method FromVpnConn(setting: Setting, servers: seq<string>, fullTunnel: bool, isAddress: string -> bool)
    returns (config: Config)
    ensures config.fullTunnel == fullTunnel && config.servers == servers
    ensures forall d :: d in config.split <==> Given(setting.domainSplit, isAddress, d)
    ensures forall d :: Cell(
                          config.tables.exactV4,
                          NormalizedEntries(setting.dynamicDomain) + NormalizedEntries(setting.routeSplit), d)
    ensures forall d :: LastCell(config.tables.exactV6, NormalizedEntries(setting.v6RouteSplit), d)
    ensures config.tables.wildcardV4 == NormalizedEntries(setting.wildcardRouteSplit)
    ensures config.tables.suffixV4 == NormalizedEntries(setting.suffixRouteSplit)
  {
    var split := AcceptDomains(setting.domainSplit, isAddress);
    var exactV4 := MergeEntries(NormalizedEntries(setting.dynamicDomain) + NormalizedEntries(setting.routeSplit));
    var exactV6 := CollectEntries(NormalizedEntries(setting.v6RouteSplit));
    var tables := Tables(
      exactV4, exactV6, NormalizedEntries(setting.wildcardRouteSplit), NormalizedEntries(setting.suffixRouteSplit));
    config := Config(fullTunnel, servers, split, tables);
  }

  // ------------------------------------------------------------------
  // Lookup
  // ------------------------------------------------------------------

  predicate EntryMatches(entry: Entry, name: string) {
    entry.key != "" && NameMatches(name, entry.key)
  }

  function Find(table: seq<Entry>, name: string): Option<seq<string>> {
    if table == [] then None
    else if EntryMatches(table[0], name) then Some(table[0].values)
    else Find(table[1..], name)
  }

  function LookupV4(tables: Tables, name: string): Option<seq<string>> {
    if name in tables.exactV4 then Some(tables.exactV4[name])
    else
      var wildcard := Find(tables.wildcardV4, name);
      if wildcard.Some? then wildcard else Find(tables.suffixV4, name)
  }

  function LookupV6(tables: Tables, name: string): Option<seq<string>> {
    if name in tables.exactV6 then Some(tables.exactV6[name]) else None
  }

  /** Entry `i` is the first of the table whose labels end the name. */
  ghost predicate FirstHit(table: seq<Entry>, name: string, i: int) {
    && 0 <= i < |table|
    && table[i].key != "" && LabelSuffix(table[i].key, name)
    && forall j :: 0 <= j < i ==> table[j].key == "" || !LabelSuffix(table[j].key, name)
  }

  lemma {:induction false} FindIsFirstHit(table: seq<Entry>, name: string)
    ensures Find(table, name).Some? <==> exists i :: FirstHit(table, name, i)
    ensures forall i :: FirstHit(table, name, i) ==> Find(table, name) == Some(table[i].values)
  {
    if table != [] {
      NameMatchesIsLabelSuffix(name, table[0].key);
      FindIsFirstHit(table[1..], name);
      if EntryMatches(table[0], name) {
        assert FirstHit(table, name, 0);
      } else {
        forall i | FirstHit(table, name, i) ensures FirstHit(table[1..], name, i - 1) {
          assert forall j :: 0 <= j < i - 1 ==> table[1..][j] == table[j + 1];
        }
        if Find(table, name).Some? {
          var i :| FirstHit(table[1..], name, i);
          assert forall j :: 0 < j <= i ==> table[j] == table[1..][j - 1];
          assert FirstHit(table, name, i + 1);
        }
      }
    }
  }

  /** A lookup succeeds exactly when some layer matches by labels, and the layers
      are asked in the order exact, wildcard, suffix. */
  lemma LookupPrecedence(tables: Tables, name: string)
    ensures LookupV4(tables, name).Some? <==>
            name in tables.exactV4
            || (exists i :: FirstHit(tables.wildcardV4, name, i)) || (exists i :: FirstHit(tables.suffixV4, name, i))
    ensures name in tables.exactV4 ==> LookupV4(tables, name) == Some(tables.exactV4[name])
    ensures name !in tables.exactV4 ==>
              forall i :: FirstHit(tables.wildcardV4, name, i) ==>
                            LookupV4(tables, name) == Some(tables.wildcardV4[i].values)
    ensures name !in tables.exactV4 && !(exists i :: FirstHit(tables.wildcardV4, name, i)) ==>
              forall i :: FirstHit(tables.suffixV4, name, i) ==>
                            LookupV4(tables, name) == Some(tables.suffixV4[i].values)
  {
    FindIsFirstHit(tables.wildcardV4, name);
    FindIsFirstHit(tables.suffixV4, name);
  }

  // ------------------------------------------------------------------
  // The order of the scanned tables
  // ------------------------------------------------------------------

  /** All entries of the table that match the name, that is, whose labels end it,
      carry the same values. */
  ghost predicate Uniform(table: seq<Entry>, name: string) {
    forall e, f :: e in table && f in table && EntryMatches(e, name) && EntryMatches(f, name) ==> e.values == f.values
  }

  lemma {:induction false} FindGivesMatch(table: seq<Entry>, name: string)
    ensures Find(table, name).None? <==> forall e :: e in table ==> !EntryMatches(e, name)
    ensures Find(table, name).Some? ==>
              exists e :: e in table && EntryMatches(e, name) && e.values == Find(table, name).value
  {
    if table != [] {
      FindGivesMatch(table[1..], name);
      assert forall e :: e in table <==> e == table[0] || e in table[1..];
    }
  }

  lemma SameMembers(a: seq<Entry>, b: seq<Entry>)
    requires multiset(a) == multiset(b)
    ensures forall e :: e in a <==> e in b
  {
    forall e ensures e in a <==> e in b {
      assert e in multiset(a) <==> e in multiset(b);
    }
  }

  ghost predicate SameInAnyOrder(table: seq<Entry>, name: string) {
    forall p :: multiset(p) == multiset(table) ==> Find(p, name) == Find(table, name)
  }

  /** The scan of a table gives the same answer in every order of the table exactly
      when its matching entries agree. */
  lemma FindIsOrderFreeIff(table: seq<Entry>, name: string)
    ensures SameInAnyOrder(table, name) <==> Uniform(table, name)
  {
    FindGivesMatch(table, name);
    if Uniform(table, name) {
      forall p | multiset(p) == multiset(table) ensures Find(p, name) == Find(table, name) {
        SameMembers(p, table);
        FindGivesMatch(p, name);
      }
    } else {
      var e, f :| e in table && f in table && EntryMatches(e, name) && EntryMatches(f, name) && e.values != f.values;
      var other := if Find(table, name) == Some(e.values) then f else e;
      var p := MovedToFront(table, other);
      assert Find(p, name) == Some(other.values);
    }
  }

  lemma MovedToFront(table: seq<Entry>, e: Entry) returns (p: seq<Entry>)
    requires e in table
    ensures multiset(p) == multiset(table) && p != [] && p[0] == e
  {
    var i :| 0 <= i < |table| && table[i] == e;
    p := [e] + (table[..i] + table[i + 1..]);
    assert table == table[..i] + [e] + table[i + 1..];
  }

  /** The tables with their scanned layers in another order. */
  ghost predicate Reordered(tables: Tables, other: Tables) {
    && other.exactV4 == tables.exactV4 && other.exactV6 == tables.exactV6
    && multiset(other.wildcardV4) == multiset(tables.wildcardV4)
    && multiset(other.suffixV4) == multiset(tables.suffixV4)
  }

  ghost predicate LookupIsOrderFree(tables: Tables, name: string) {
    forall other :: Reordered(tables, other) ==> LookupV4(other, name) == LookupV4(tables, name)
  }

  /** The scanned tables come out of hash maps in no particular order. A lookup does
      not depend on it exactly when the exact table decides, or the matching entries
      of the layer that decides agree. */
  lemma LookupIsOrderFreeIff(tables: Tables, name: string)
    ensures LookupIsOrderFree(tables, name) <==>
            || name in tables.exactV4
            || (if Find(tables.wildcardV4, name).Some? then Uniform(tables.wildcardV4, name)
                else Uniform(tables.suffixV4, name))
  {
    FindIsOrderFreeIff(tables.wildcardV4, name);
    FindIsOrderFreeIff(tables.suffixV4, name);
    FindGivesMatch(tables.wildcardV4, name);
    if name !in tables.exactV4 {
      if Find(tables.wildcardV4, name).Some? {
        WildcardOrder(tables, name);
      } else {
        SuffixOrder(tables, name);
      }
    }
  }

  lemma WildcardOrder(tables: Tables, name: string)
    requires name !in tables.exactV4 && Find(tables.wildcardV4, name).Some?
    ensures LookupIsOrderFree(tables, name) <==> SameInAnyOrder(tables.wildcardV4, name)
  {
    if SameInAnyOrder(tables.wildcardV4, name) {
      forall other | Reordered(tables, other) ensures LookupV4(other, name) == LookupV4(tables, name) {
        assert Find(other.wildcardV4, name) == Find(tables.wildcardV4, name);
      }
    }
    if LookupIsOrderFree(tables, name) {
      FindGivesMatch(tables.wildcardV4, name);
      forall p | multiset(p) == multiset(tables.wildcardV4) ensures Find(p, name) == Find(tables.wildcardV4, name) {
        SameMembers(p, tables.wildcardV4);
        FindGivesMatch(p, name);
        assert Reordered(tables, tables.(wildcardV4 := p));
      }
    }
  }

  lemma SuffixOrder(tables: Tables, name: string)
    requires name !in tables.exactV4 && Find(tables.wildcardV4, name).None?
    ensures LookupIsOrderFree(tables, name) <==> SameInAnyOrder(tables.suffixV4, name)
  {
    FindGivesMatch(tables.wildcardV4, name);
    if SameInAnyOrder(tables.suffixV4, name) {
      forall other | Reordered(tables, other) ensures LookupV4(other, name) == LookupV4(tables, name) {
        SameMembers(other.wildcardV4, tables.wildcardV4);
        FindGivesMatch(other.wildcardV4, name);
        assert Find(other.suffixV4, name) == Find(tables.suffixV4, name);
      }
    }
    if LookupIsOrderFree(tables, name) {
      forall p | multiset(p) == multiset(tables.suffixV4) ensures Find(p, name) == Find(tables.suffixV4, name) {
        assert Reordered(tables, tables.(suffixV4 := p));
      }
    }
  }

  // ------------------------------------------------------------------
  // Split routing
  // ------------------------------------------------------------------

  predicate MatchesSplit(config: Config, domain: string) {
    exists d :: d in config.split && SplitPairMatches(d, Normalize(domain))
  }

  predicate RouteThroughVpn(config: Config, domain: Option<string>) {
    config.fullTunnel || (domain.Some? && MatchesSplit(config, domain.value))
  }

  ghost predicate WildcardFreeSplit(config: Config) {
    forall d :: d in config.split ==> WildcardFree(d)
  }

  /** Split matching is label matching. */
  lemma SplitIsLabelSuffix(config: Config, domain: string)
    requires WildcardFreeSplit(config)
    ensures MatchesSplit(config, domain) <==> exists d :: d in config.split && LabelSuffix(d, Normalize(domain))
  {
    forall d | d in config.split
      ensures SplitPairMatches(d, Normalize(domain)) <==> LabelSuffix(d, Normalize(domain))
    {
      SplitPairIsLabelSuffix(d, Normalize(domain));
    }
  }

  /** Split routing is closed under subdomains, for any patterns and any text put
      in front of a normal name. */
  lemma SplitCoversSubdomains(config: Config, front: string, name: string)
    requires name != "" && InNormalForm(name) && MatchesSplit(config, name)
    ensures MatchesSplit(config, front + "." + name)
  {
    NormalFormIsFixpoint(name);
    var d :| d in config.split && SplitPairMatches(d, Normalize(name));
    var rest := SubdomainNormalizes(front, name);
    SplitPairCoversSubdomain(d, rest, name);
    assert SplitPairMatches(d, Normalize(front + "." + name));
  }

  // ------------------------------------------------------------------
  // Messages
  // ------------------------------------------------------------------

  datatype RecordType = A | AAAA | OtherType(code: nat)

  datatype Question = Question(name: string, qtype: RecordType)

  datatype Record = RecordA(name: string, ttl: nat, ip: nat) | RecordAAAA(name: string, ttl: nat, ip: nat)

  datatype ResponseCode = NoError | ServFail | OtherCode(code: nat)

  datatype Message = Message(
    id: nat, questions: seq<Question>, answers: seq<Record>,
    isResponse: bool, code: ResponseCode, recursionAvailable: bool)

  /** A DNS payload: a message on the wire, or bytes that are none. */
  datatype Payload = Garbage(bytes: seq<nat>) | Wire(message: Message)

  /** The library parsers and the encoder, of which only the type is known. */
  datatype Codec = Codec(parseV4: string -> Option<nat>, parseV6: string -> Option<nat>, encodes: Message -> bool)

  const DYNAMIC_TTL := 3600

  function UpTo(s: string, stop: char): string {
    if s == "" || s[0] == stop then "" else [s[0]] + UpTo(s[1..], stop)
  }

  /** The leading `/`-delimited token of a table value. */
  function ValueToken(value: string): string {
    Trim(UpTo(value, '/'), Space)
  }

  lemma {:induction false} UpToStop(token: string, rest: string, stop: char)
    requires stop !in token
    ensures UpTo(token + [stop] + rest, stop) == token && UpTo(token, stop) == token
  {
    var all := token + [stop] + rest;
    if token != "" {
      UpToStop(token[1..], rest, stop);
      assert all[1..] == token[1..] + [stop] + rest && all[0] == token[0];
      assert token == [token[0]] + token[1..];
    }
  }

  /** The token of a value is its text up to the first slash, without white space
      around it. */
  lemma ValueTokenIs(token: string, rest: string)
    requires '/' !in token
    ensures ValueToken(token) == Trim(token, Space) && ValueToken(token + "/" + rest) == Trim(token, Space)
  {
    UpToStop(token, rest, '/');
  }

  function AddressOf(value: string, parse: string -> Option<nat>): seq<nat> {
    var ip := parse(ValueToken(value));
    if ip.Some? then [ip.value] else []
  }

  /** The values that parse, in order. */
  function Parsed(values: seq<string>, parse: string -> Option<nat>): seq<nat> {
    if values == [] then [] else AddressOf(values[0], parse) + Parsed(values[1..], parse)
  }

  function RecordsA(name: string, ips: seq<nat>): (r: seq<Record>)
    ensures |r| == |ips| && forall k :: 0 <= k < |ips| ==> r[k] == RecordA(name, 3600, ips[k])
  {
    seq(|ips|, i requires 0 <= i < |ips| => RecordA(name, DYNAMIC_TTL, ips[i]))
  }

  function RecordsAAAA(name: string, ips: seq<nat>): (r: seq<Record>)
    ensures |r| == |ips| && forall k :: 0 <= k < |ips| ==> r[k] == RecordAAAA(name, 3600, ips[k])
  {
    seq(|ips|, i requires 0 <= i < |ips| => RecordAAAA(name, DYNAMIC_TTL, ips[i]))
  }

  function BuildResponse(request: Message, answers: seq<Record>, codec: Codec): Option<Message> {
    var response := request.(
      isResponse := true, code := NoError, recursionAvailable := true, answers := request.answers + answers);
    if codec.encodes(response) then Some(response) else None
  }

  function Synthesize(config: Config, payload: Payload, codec: Codec): Option<Message> {
    if config.tables.IsEmpty() || payload.Garbage? || payload.message.questions == [] then None
    else
      var request := payload.message;
      var question := request.questions[0];
      var name := Normalize(question.name);
      if name == "" then None
      else
        match question.qtype
        case A =>
          var values := LookupV4(config.tables, name);
          if values.None? then None
          else
            var ips := Parsed(values.value, codec.parseV4);
            if ips == [] then None else BuildResponse(request, RecordsA(question.name, ips), codec)
        case AAAA =>
          var values := LookupV6(config.tables, name);
          if values.Some? then
            BuildResponse(request, RecordsAAAA(question.name, Parsed(values.value, codec.parseV6)), codec)
          else if LookupV4(config.tables, name).Some? then BuildResponse(request, [], codec)
          else None
        case OtherType(_) => None
  }

  function SynthesizeFailure(payload: Payload, code: ResponseCode, codec: Codec): Payload {
    if payload.Garbage? then payload
    else
      var failure := payload.message.(isResponse := true, code := code, recursionAvailable := true);
      if codec.encodes(failure) then Wire(failure) else payload
  }

  function QuestionDomain(payload: Payload): Option<string> {
    if payload.Garbage? || payload.message.questions == [] then None
    else Some(Normalize(payload.message.questions[0].name))
  }

  /** Where the answer to a query comes from. */
  datatype Path = Local(answer: Message) | Routed | Directed

  function Decide(config: Config, payload: Payload, codec: Codec): Path {
    var answer := Synthesize(config, payload, codec);
    if answer.Some? then Local(answer.value)
    else if RouteThroughVpn(config, QuestionDomain(payload)) then Routed
    else Directed
  }

  /** `resolve`: `upstream` is what the chosen servers give, `None` on failure. */
  function Resolve(config: Config, payload: Payload, upstream: Option<Payload>, codec: Codec): Payload {
    match Decide(config, payload, codec)
    case Local(answer) => Wire(answer)
    case _ => if upstream.Some? then upstream.value else SynthesizeFailure(payload, ServFail, codec)
  }

  ghost predicate AlwaysEncodes(codec: Codec) {
    forall m :: codec.encodes(m)
  }

  ghost predicate Asks(payload: Payload, name: string, qtype: RecordType) {
    payload.Wire? && payload.message.questions != [] && payload.message.questions[0] == Question(name, qtype)
  }

  /** When an A query is answered from the tables, so is the AAAA query for that
      name: with the addresses of the v6 table, or with no answer at all. No
      client leaks the name upstream by asking for the other family. */
  lemma AnsweredAMeansAnsweredAAAA(config: Config, codec: Codec, name: string, a: Payload, aaaa: Payload)
    requires AlwaysEncodes(codec) && Asks(a, name, A) && Asks(aaaa, name, AAAA)
    requires Decide(config, a, codec).Local?
    ensures Decide(config, aaaa, codec).Local?
    ensures var answer := Decide(config, aaaa, codec).answer;
            && answer.isResponse && answer.code == NoError
            && answer.id == aaaa.message.id && answer.questions == aaaa.message.questions
            && answer.answers == aaaa.message.answers +
               (match LookupV6(config.tables, Normalize(name))
                case Some(values) => RecordsAAAA(name, Parsed(values, codec.parseV6))
                case None => [])
  {
    assert aaaa.message.answers + [] == aaaa.message.answers;
  }

  /** An A query is answered locally exactly when its name is in the tables with
      at least one value that is an address. */
  lemma AnsweredAIff(config: Config, codec: Codec, name: string, a: Payload)
    requires AlwaysEncodes(codec) && Asks(a, name, A)
    ensures Decide(config, a, codec).Local? <==>
            && Normalize(name) != ""
            && LookupV4(config.tables, Normalize(name)).Some?
            && exists v :: v in LookupV4(config.tables, Normalize(name)).value && codec.parseV4(ValueToken(v)).Some?
  {
    var values := LookupV4(config.tables, Normalize(name));
    if values.Some? {
      ParsedNonEmpty(values.value, codec.parseV4);
    }
  }

  lemma {:induction false} ParsedNonEmpty(values: seq<string>, parse: string -> Option<nat>)
    ensures Parsed(values, parse) != [] <==> exists v :: v in values && parse(ValueToken(v)).Some?
  {
    if values != [] {
      ParsedNonEmpty(values[1..], parse);
      assert forall v :: v in values <==> v == values[0] || v in values[1..];
    }
  }

  lemma {:induction false} ParsedAppend(front: seq<string>, back: seq<string>, parse: string -> Option<nat>)
    ensures Parsed(front + back, parse) == Parsed(front, parse) + Parsed(back, parse)
  {
    if front == [] {
      assert front + back == back;
    } else {
      ParsedAppend(front[1..], back, parse);
      assert (front + back)[1..] == front[1..] + back && (front + back)[0] == front[0];
      Associates(AddressOf(front[0], parse), Parsed(front[1..], parse), Parsed(back, parse));
    }
  }

  /** Each value of a table gives its own record and nothing else does: the value at
      `i`, if it is an address, is the record after those of the values before it. */
  lemma AddressesInOrder(values: seq<string>, parse: string -> Option<nat>, i: nat)
    requires i < |values| && parse(ValueToken(values[i])).Some?
    ensures var k := |Parsed(values[..i], parse)|;
            k < |Parsed(values, parse)| && Parsed(values, parse)[k] == parse(ValueToken(values[i])).value
    ensures |Parsed(values, parse)| <= |values|
  {
    ParsedAppend(values[..i], values[i..], parse);
    assert values == values[..i] + values[i..] && values[i..][0] == values[i];
    ParsedIsShort(values, parse);
  }

  lemma {:induction false} ParsedIsShort(values: seq<string>, parse: string -> Option<nat>)
    ensures |Parsed(values, parse)| <= |values|
  {
    if values != [] {
      ParsedIsShort(values[1..], parse);
    }
  }

  /** The answer to an A query repeats the query and carries one record, with the
      name as asked and the fixed lifetime, for each address of the table. */
  lemma AnswerOfA(config: Config, codec: Codec, name: string, a: Payload)
    requires Asks(a, name, A) && Decide(config, a, codec).Local?
    ensures LookupV4(config.tables, Normalize(name)).Some?
    ensures var answer := Decide(config, a, codec).answer;
            var ips := Parsed(LookupV4(config.tables, Normalize(name)).value, codec.parseV4);
            && answer.isResponse && answer.code == NoError && answer.recursionAvailable
            && answer.id == a.message.id && answer.questions == a.message.questions
            && answer.answers == a.message.answers + RecordsA(name, ips)
  {
  }

  /** An AAAA query is answered locally exactly when its name is in either family's tables. */
  lemma AnsweredAAAAIff(config: Config, codec: Codec, name: string, aaaa: Payload)
    requires AlwaysEncodes(codec) && Asks(aaaa, name, AAAA)
    ensures Decide(config, aaaa, codec).Local? <==>
            && Normalize(name) != ""
            && (Normalize(name) in config.tables.exactV6 || LookupV4(config.tables, Normalize(name)).Some?)
  {
  }

  /** The v6 addresses of the name are the answer, and there may be none. */
  lemma AnswerOfAAAA(config: Config, codec: Codec, name: string, aaaa: Payload)
    requires AlwaysEncodes(codec) && Asks(aaaa, name, AAAA) && Decide(config, aaaa, codec).Local?
    ensures var v6, domain := config.tables.exactV6, Normalize(name);
            var ips := if domain in v6 then Parsed(v6[domain], codec.parseV6) else [];
            Decide(config, aaaa, codec).answer.answers == aaaa.message.answers + RecordsAAAA(name, ips)
  {
    assert RecordsAAAA(name, []) == [];
  }

  /** Queries of other types, queries without a question and bytes that are no message
      are never answered from the tables. */
  lemma OthersAreForwarded(config: Config, codec: Codec, payload: Payload)
    requires payload.Wire? && payload.message.questions != [] ==> payload.message.questions[0].qtype.OtherType?
    ensures !Decide(config, payload, codec).Local?
  {
  }

  /** By the text of the question: what is routed if it is not answered locally. */
  lemma RoutedIff(config: Config, payload: Payload, name: string, qtype: RecordType)
    requires WildcardFreeSplit(config) && Asks(payload, name, qtype)
    ensures RouteThroughVpn(config, QuestionDomain(payload)) <==>
            || config.fullTunnel
            || exists d :: d in config.split && LabelSuffix(d, Normalize(Normalize(name)))
  {
    var domain := Normalize(name);
    SplitIsLabelSuffix(config, domain);
    assert QuestionDomain(payload) == Some(domain);
  }

  lemma PathIs(config: Config, codec: Codec, payload: Payload)
    requires !Decide(config, payload, codec).Local?
    ensures Decide(config, payload, codec) ==
            if RouteThroughVpn(config, QuestionDomain(payload)) then Routed else Directed
  {
  }

  /** What the asker gets: the local answer, or what the servers of the path gave, or
      its own query as a failure. */
  lemma ResolveIs(config: Config, codec: Codec, payload: Payload, upstream: Option<Payload>)
    ensures Decide(config, payload, codec).Local? ==>
              Resolve(config, payload, upstream, codec) == Wire(Decide(config, payload, codec).answer)
    ensures !Decide(config, payload, codec).Local? && upstream.Some? ==>
              Resolve(config, payload, upstream, codec) == upstream.value
    ensures !Decide(config, payload, codec).Local? && upstream.None? && payload.Garbage? ==>
              Resolve(config, payload, upstream, codec) == payload
  {
  }

  /** A full tunnel never uses the directed path; a split tunnel routes exactly the
      names whose labels end in a split domain. */
  lemma PathsByMode(config: Config, payload: Payload, codec: Codec)
    requires WildcardFreeSplit(config)
    ensures config.fullTunnel ==> !Decide(config, payload, codec).Directed?
    ensures !config.fullTunnel && !Decide(config, payload, codec).Local? ==>
              (Decide(config, payload, codec).Routed? <==>
               && QuestionDomain(payload).Some?
               && exists d :: d in config.split && LabelSuffix(d, Normalize(QuestionDomain(payload).value)))
  {
    if QuestionDomain(payload).Some? {
      SplitIsLabelSuffix(config, QuestionDomain(payload).value);
    }
  }

  /** In a split tunnel whose one domain was given as `raw`, the query for that domain
      is routed exactly when the accepted domain is in normal form. */
  lemma OwnDomainIsRoutedIff(config: Config, raw: string, payload: Payload, qtype: RecordType)
    requires !config.fullTunnel && config.split == {Normalize(raw)} && WildcardFree(Normalize(raw))
    requires Asks(payload, Normalize(raw) + ".", qtype)
    ensures RouteThroughVpn(config, QuestionDomain(payload)) <==> InNormalForm(Normalize(raw))
  {
    OwnNameMatchesIff(raw, Normalize(raw) + ".");
    assert Normalize(raw) in config.split;
  }

  /** There are accepted domains outside normal form: any normal domain name, quoted
      twice, is accepted with one pair of quotes left on it. */
  lemma QuotedDomainIsLost(name: string, isAddress: string -> bool)
    requires InNormalForm(name) && name != "" && '.' in name && '/' !in name && !isAddress(Quoted(name))
    ensures Accepts(['\''] + Quoted(name) + ['\''], isAddress)
    ensures Normalize(['\''] + Quoted(name) + ['\'']) == Quoted(name) && !InNormalForm(Quoted(name))
  {
    NormalizeIsNotIdempotent(name);
    NormalFormIsFixpoint(Quoted(name));
    var i :| 0 <= i < |name| && name[i] == '.';
    assert Quoted(name)[i + 1] == '.';
  }

  /** When no server answers, the asker still gets a response to its own query. */
  lemma FailureIsServFail(config: Config, payload: Payload, codec: Codec)
    requires AlwaysEncodes(codec) && payload.Wire? && !Decide(config, payload, codec).Local?
    ensures var reply := Resolve(config, payload, None, codec);
            && reply.Wire? && reply.message.isResponse && reply.message.code == ServFail
            && reply.message.id == payload.message.id && reply.message.questions == payload.message.questions
            && reply.message.recursionAvailable && reply.message.answers == payload.message.answers
  {
  }
}
