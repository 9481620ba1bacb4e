/** The repository string `[[auth-id@]host[:port]:]datastore[/namespace]`. */
module Repository {
  import opened Wrappers
  import opened Text

  const PORT_LIMIT: nat := 65536

  datatype Repo = Repo(authId: Option<string>, host: Option<string>, port: Option<nat>, datastore: string,
                       ns: Option<string>)

  datatype Error = EmptyString | UnclosedBracket | ExpectedColon | InvalidPort | TooManyFields | MissingDatastore

  datatype HostPart = HostPart(host: Option<string>, port: Option<nat>, store: string)

  // ---------------------------------------------------------------- parsing

  function Split(s: string, c: char): (parts: seq<string>)
    ensures parts != []
    decreases |s|
  {
    var k := IndexOf(s, c);
    if k == |s| then [s] else [s[..k]] + Split(s[k + 1..], c)
  }

  function ParsePort(s: string): Result<nat, Error> {
    match ParseUnsigned(s, PORT_LIMIT)
    case None => Err(InvalidPort)
    case Some(port) => Ok(port)
  }

  /** After a bracketed host: `port:datastore` or `datastore`. */
  function SplitPort(tail: string): Result<(Option<nat>, string), Error> {
    var k := IndexOf(tail, ':');
    if k == |tail| then Ok((None, tail))
    else
      match ParsePort(tail[..k])
      case Err(e) => Err(e)
      case Ok(port) => Ok((Some(port), tail[k + 1..]))
  }

  function ParseBracketed(after: string): Result<HostPart, Error> {
    var close := IndexOf(after, ']');
    if close == |after| then Err(UnclosedBracket)
    else if close + 1 == |after| || after[close + 1] != ':' then Err(ExpectedColon)
    else
      match SplitPort(after[close + 2..])
      case Err(e) => Err(e)
      case Ok((port, store)) => Ok(HostPart(Some("[" + after[..close] + "]"), port, store))
  }

  function ParseHostPart(rest: string): Result<HostPart, Error> {
    if rest != [] && rest[0] == '[' then ParseBracketed(rest[1..])
    else
      var parts := Split(rest, ':');
      if |parts| == 1 then Ok(HostPart(None, None, parts[0]))
      else if |parts| == 2 then Ok(HostPart(Some(parts[0]), None, parts[1]))
      else if |parts| == 3 then
        match ParsePort(parts[1])
        case Err(e) => Err(e)
        case Ok(port) => Ok(HostPart(Some(parts[0]), Some(port), parts[2]))
      else Err(TooManyFields)
  }

  /** A namespace follows the first slash, unless nothing follows it. */
  function SplitStore(store: string): (string, Option<string>) {
    var k := IndexOf(store, '/');
    if k + 1 < |store| then (store[..k], Some(store[k + 1..])) else (store, None)
  }

  function SplitAuth(s: string): (Option<string>, string) {
    match LastIndexOf(s, '@')
    case None => (None, s)
    case Some(k) => (Some(s[..k]), s[k + 1..])
  }

  function Parse(input: string): Result<Repo, Error> {
    var s := Trim(input);
    if s == [] then Err(EmptyString)
    else
      var (authId, rest) := SplitAuth(s);
      match ParseHostPart(rest)
      case Err(e) => Err(e)
      case Ok(part) =>
        var (datastore, ns) := SplitStore(part.store);
        if datastore == [] then Err(MissingDatastore)
        else Ok(Repo(authId, part.host, part.port, datastore, ns))
  }

  // ---------------------------------------------------------------- printing

  function ShowAuth(authId: Option<string>): string {
    match authId case None => "" case Some(a) => a + "@"
  }

  function ShowHost(host: Option<string>, port: Option<nat>): string {
    match host
    case None => ""
    case Some(h) => h + (if port.Some? then ":" + Decimal(port.value) else "") + ":"
  }

  function ShowStore(datastore: string, ns: Option<string>): string {
    datastore + if ns.Some? then "/" + ns.value else ""
  }

  function Display(r: Repo): string {
    ShowAuth(r.authId) + ShowHost(r.host, r.port) + ShowStore(r.datastore, r.ns)
  }

  /** The formatter's writes, in order. */
  method Write(r: Repo) returns (out: string)
    ensures out == Display(r)
  {
    out := "";
    if r.authId.Some? {
      out := out + r.authId.value + "@";
    }
    if r.host.Some? {
      out := out + r.host.value;
      if r.port.Some? {
        out := out + ":" + Decimal(r.port.value);
      }
      out := out + ":";
    }
    assert out == ShowAuth(r.authId) + ShowHost(r.host, r.port);
    out := out + r.datastore;
    if r.ns.Some? {
      out := out + "/" + r.ns.value;
    }
  }

  // ---------------------------------------------------------------- string lemmas

  lemma IndexUnique(s: string, c: char, k: nat)
    requires k <= |s| && (k < |s| ==> s[k] == c) && forall i :: 0 <= i < k ==> s[i] != c
    ensures IndexOf(s, c) == k
  {
  }

  lemma IndexAfter(a: string, c: char, b: string)
    requires c !in a
    ensures IndexOf(a + [c] + b, c) == |a| && (a + [c] + b)[..|a|] == a && (a + [c] + b)[|a| + 1..] == b
  {
    IndexUnique(a + [c] + b, c, |a|);
  }

  lemma SplitAt(a: string, c: char, b: string)
    requires c !in a
    ensures Split(a + [c] + b, c) == [a] + Split(b, c)
  {
    IndexAfter(a, c, b);
  }

  lemma TrimKeeps(s: string)
    requires s != [] && !IsWhitespace(s[0]) && !IsWhitespace(s[|s| - 1])
    ensures Trim(s) == s
  {
  }

  lemma SplitAuthOf(a: string, rest: string)
    requires '@' !in rest
    ensures SplitAuth(a + "@" + rest) == (Some(a), rest)
  {
    var s := a + "@" + rest;
    var k := LastIndexOf(s, '@');
    assert s[|a|] == '@';
    assert forall i :: |a| < i < |s| ==> s[i] == rest[i - |a| - 1];
    assert k == Some(|a|);
    assert s[..|a|] == a && s[|a| + 1..] == rest;
  }

  lemma DecimalAvoids(n: nat, c: char)
    requires !IsDigit(c)
    ensures c !in Decimal(n)
  {
  }

  // ---------------------------------------------------------------- the store field

  lemma StoreRoundTrip(store: string)
    ensures var (ds, ns) := SplitStore(store);
            ShowStore(ds, ns) == store && (store != [] && ds == [] ==> store[0] == '/')
  {
  }

  // ---------------------------------------------------------------- the host part

  /** The text between the auth id and the end, as it is printed. */
  function ShowPart(p: HostPart): string {
    ShowHost(p.host, p.port) + p.store
  }

  /** What parsing tells of its input: the printed form differs from it only in the port's spelling. */
  predicate Faithful(rest: string, p: HostPart) {
    && (p.port.None? ==> ShowPart(p) == rest)
    && ('@' !in rest ==> '@' !in ShowPart(p))
    && (p.store != [] ==> rest != [] && ShowPart(p)[0] == rest[0] && rest[|rest| - 1] == p.store[|p.store| - 1])
  }

  /** When nothing is respelled, the printed form is the input itself. */
  lemma UnchangedIsFaithful(rest: string, p: HostPart)
    requires ParseHostPart(rest) == Ok(p) && ShowPart(p) == rest
    ensures Faithful(rest, p)
  {
  }

  /** What follows a bracketed host. */
  function ShowTail(port: Option<nat>, store: string): string {
    (if port.Some? then Decimal(port.value) + ":" else "") + store
  }

  lemma PortTail(port: nat, store: string)
    requires port < PORT_LIMIT
    ensures SplitPort(ShowTail(Some(port), store)) == Ok((Some(port), store))
    ensures '@' !in store ==> '@' !in ShowTail(Some(port), store)
  {
    PortPrints(port);
    IndexAfter(Decimal(port), ':', store);
    assert ShowTail(Some(port), store) == Decimal(port) + [':'] + store;
  }

  lemma TailFaithful(tail: string)
    requires SplitPort(tail).Ok?
    ensures var (port, store) := SplitPort(tail).value;
            && (port.None? ==> ShowTail(port, store) == tail)
            && ('@' !in tail ==> '@' !in ShowTail(port, store))
            && (store != [] ==> tail != [] && tail[|tail| - 1] == store[|store| - 1])
  {
    var (port, store) := SplitPort(tail).value;
    if port.Some? {
      PortTail(port.value, store);
    } else {
      assert ShowTail(port, store) == tail;
    }
  }

  function Bracketed(host: string, tail: string): string {
    "[" + (host + "]" + (":" + tail))
  }

  lemma ParseOfBracketed(host: string, tail: string)
    requires ']' !in host && SplitPort(tail).Ok?
    ensures ParseHostPart(Bracketed(host, tail))
         == Ok(HostPart(Some("[" + host + "]"), SplitPort(tail).value.0, SplitPort(tail).value.1))
  {
    var after := host + "]" + (":" + tail);
    assert Bracketed(host, tail)[1..] == after;
    IndexAfter(host, ']', ":" + tail);
    assert after[|host| + 1] == ':' && after[|host| + 2..] == tail;
  }

  lemma BracketedShape(rest: string) returns (host: string, tail: string)
    requires rest != [] && rest[0] == '[' && ParseHostPart(rest).Ok?
    ensures rest == Bracketed(host, tail) && ']' !in host && SplitPort(tail).Ok?
  {
    var after := rest[1..];
    var close := IndexOf(after, ']');
    host, tail := after[..close], after[close + 2..];
    assert after[close + 1..] == ":" + tail;
    assert after[..close + 1] == host + "]";
    assert after == after[..close + 1] + after[close + 1..];
    assert rest == "[" + after;
  }

  lemma ShowBracketed(host: string, port: Option<nat>, store: string)
    ensures ShowPart(HostPart(Some("[" + host + "]"), port, store)) == Bracketed(host, ShowTail(port, store))
  {
  }

  lemma BracketedFaithful(rest: string)
    requires rest != [] && rest[0] == '[' && ParseHostPart(rest).Ok?
    ensures Faithful(rest, ParseHostPart(rest).value)
  {
    var host, tail := BracketedShape(rest);
    ParseOfBracketed(host, tail);
    TailFaithful(tail);
    var (port, store) := SplitPort(tail).value;
    ShowBracketed(host, port, store);
    BracketedEnds(host, tail, ShowTail(port, store));
  }

  lemma BracketedEnds(host: string, tail: string, shown: string)
    ensures Bracketed(host, tail)[0] == '[' == Bracketed(host, shown)[0]
    ensures tail != [] ==> Bracketed(host, tail)[|Bracketed(host, tail)| - 1] == tail[|tail| - 1]
    ensures '@' !in Bracketed(host, tail) && ('@' !in tail ==> '@' !in shown) ==> '@' !in Bracketed(host, shown)
  {
    var b := Bracketed(host, tail);
    assert forall i :: 0 <= i < |tail| ==> b[|host| + 3 + i] == tail[i];
    assert forall i :: 0 <= i < |host| ==> b[1 + i] == host[i];
  }

  lemma {:induction false} SplitShape(s: string, c: char)
    ensures |Split(s, c)| == 1 ==> s == Split(s, c)[0] && c !in s
    ensures |Split(s, c)| > 1 ==>
              c !in Split(s, c)[0] && exists b :: Split(s, c)[1..] == Split(b, c) && s == Split(s, c)[0] + [c] + b
  {
    var k := IndexOf(s, c);
    if k < |s| {
      assert Split(s, c)[1..] == Split(s[k + 1..], c);
      assert s == s[..k] + [c] + s[k + 1..];
    }
  }

  lemma TwoFields(rest: string)
    requires |Split(rest, ':')| == 2
    ensures rest == Split(rest, ':')[0] + ":" + Split(rest, ':')[1]
  {
    SplitShape(rest, ':');
    var b :| Split(rest, ':')[1..] == Split(b, ':') && rest == Split(rest, ':')[0] + ":" + b;
    SplitShape(b, ':');
    assert Split(rest, ':')[1] == Split(b, ':')[0];
  }

  lemma ThreeFields(rest: string)
    requires |Split(rest, ':')| == 3
    ensures var f := Split(rest, ':');
            rest == f[0] + ":" + (f[1] + ":" + f[2]) && ':' !in f[0] && ':' !in f[1] && ':' !in f[2]
  {
    var f := Split(rest, ':');
    SplitShape(rest, ':');
    var b :| f[1..] == Split(b, ':') && rest == f[0] + ":" + b;
    TwoFields(b);
    SplitShape(b, ':');
    var d :| Split(b, ':')[1..] == Split(d, ':') && b == Split(b, ':')[0] + ":" + d;
    SplitShape(d, ':');
    assert f[1] == Split(b, ':')[0] && f[2] == Split(b, ':')[1];
  }

  function Fields(a: string, b: string, c: string): string {
    a + ":" + (b + ":" + c)
  }

  lemma SplitOfFields(a: string, b: string, c: string)
    requires ':' !in a && ':' !in b && ':' !in c
    ensures Split(Fields(a, b, c), ':') == [a, b, c]
  {
    SplitAt(a, ':', b + ":" + c);
    SplitAt(b, ':', c);
    IndexUnique(c, ':', |c|);
    assert Split(Fields(a, b, c), ':') == [a] + ([b] + [c]);
  }

  lemma FieldsEnds(a: string, b: string, c: string, d: string)
    ensures Fields(a, b, c)[0] == Fields(a, d, c)[0]
    ensures c != [] ==> Fields(a, b, c)[|Fields(a, b, c)| - 1] == c[|c| - 1]
    ensures '@' !in Fields(a, b, c) && '@' !in d ==> '@' !in Fields(a, d, c)
  {
    var f := Fields(a, b, c);
    assert forall i :: 0 <= i < |a| ==> f[i] == a[i];
    assert forall i :: 0 <= i < |c| ==> f[|a| + |b| + 2 + i] == c[i];
  }

  lemma ShowFields(a: string, port: nat, c: string)
    ensures ShowPart(HostPart(Some(a), Some(port), c)) == Fields(a, Decimal(port), c)
  {
  }

  lemma ParseOfFields(a: string, b: string, c: string)
    requires ':' !in a && ':' !in b && ':' !in c && Fields(a, b, c)[0] != '[' && ParsePort(b).Ok?
    ensures ParseHostPart(Fields(a, b, c)) == Ok(HostPart(Some(a), Some(ParsePort(b).value), c))
  {
    SplitOfFields(a, b, c);
  }

  lemma PortPrints(port: nat)
    requires port < PORT_LIMIT
    ensures ParsePort(Decimal(port)) == Ok(port) && ':' !in Decimal(port) && '@' !in Decimal(port)
  {
    ParseOfDecimal(port, PORT_LIMIT);
    DecimalAvoids(port, ':');
    DecimalAvoids(port, '@');
  }

  /** host:port:datastore, the port respelled. */
  lemma FieldsFaithful(a: string, b: string, c: string)
    requires ':' !in a && ':' !in b && ':' !in c && Fields(a, b, c)[0] != '[' && ParsePort(b).Ok?
    ensures Faithful(Fields(a, b, c), HostPart(Some(a), Some(ParsePort(b).value), c))
  {
    var port := ParsePort(b).value;
    PortPrints(port);
    FieldsEnds(a, b, c, Decimal(port));
    ShowFields(a, port, c);
  }

  lemma ThreeFieldsFaithful(rest: string)
    requires !(rest != [] && rest[0] == '[') && |Split(rest, ':')| == 3 && ParseHostPart(rest).Ok?
    ensures Faithful(rest, ParseHostPart(rest).value)
  {
    ThreeFields(rest);
    var f := Split(rest, ':');
    assert rest == Fields(f[0], f[1], f[2]);
    FieldsFaithful(f[0], f[1], f[2]);
  }

  lemma HostPartFaithful(rest: string)
    requires ParseHostPart(rest).Ok?
    ensures Faithful(rest, ParseHostPart(rest).value)
  {
    if rest != [] && rest[0] == '[' {
      BracketedFaithful(rest);
    } else if |Split(rest, ':')| == 3 {
      ThreeFieldsFaithful(rest);
    } else if |Split(rest, ':')| == 2 {
      TwoFields(rest);
      UnchangedIsFaithful(rest, ParseHostPart(rest).value);
    } else {
      SplitShape(rest, ':');
      UnchangedIsFaithful(rest, ParseHostPart(rest).value);
    }
  }

  // ---------------------------------------------------------------- the whole string

  lemma AuthJoins(s: string)
    ensures var (a, rest) := SplitAuth(s); s == ShowAuth(a) + rest && '@' !in rest
  {
  }

  lemma DisplayShape(r: Repo)
    ensures Display(r) == ShowAuth(r.authId) + (ShowHost(r.host, r.port) + ShowStore(r.datastore, r.ns))
  {
  }

  /** The ends of the printed form are the ends of the trimmed input, so trimming leaves it alone. */
  lemma PrintedEnds(s: string, a: Option<string>, rest: string, p: HostPart)
    requires s == ShowAuth(a) + rest && p.store != [] && Faithful(rest, p)
    ensures var d := ShowAuth(a) + ShowPart(p); d != [] && d[0] == s[0] && d[|d| - 1] == s[|s| - 1]
  {
  }

  lemma ReparseAuth(a: Option<string>, rest: string)
    requires '@' !in rest
    ensures SplitAuth(ShowAuth(a) + rest) == (a, rest)
  {
    if a.Some? {
      SplitAuthOf(a.value, rest);
    } else {
      assert ShowAuth(a) + rest == rest;
      assert LastIndexOf(rest, '@').None?;
    }
  }

  // ---------------------------------------------------------------- exactly the repositories a string can name

  predicate StartsWith(s: string, c: char) {
    s != [] && s[0] == c
  }

  /**
   * A host in brackets with no bracket inside, or one without a colon; a colon in the store only behind a bracketed
   * host's port.
   */
  predicate WellFormedPart(p: HostPart) {
    && (p.port.Some? ==> p.port.value < PORT_LIMIT)
    && match p.host
       case None => p.port.None? && ':' !in p.store && !StartsWith(p.store, '[')
       case Some(h) =>
         if StartsWith(h, '[') then
           |h| >= 2 && h[|h| - 1] == ']' && ']' !in h[1..|h| - 1] && (p.port.None? ==> ':' !in p.store)
         else ':' !in h && ':' !in p.store
  }

  /** A datastore has no slash except, without a namespace, a last one. */
  predicate WellFormedStore(datastore: string, ns: Option<string>) {
    && datastore != []
    && (ns.Some? ==> ns.value != [] && '/' !in datastore)
    && (ns.None? ==> '/' !in datastore[..|datastore| - 1])
  }

  predicate WellFormed(r: Repo) {
    var rest := ShowHost(r.host, r.port) + ShowStore(r.datastore, r.ns);
    var d := ShowAuth(r.authId) + rest;
    && WellFormedStore(r.datastore, r.ns)
    && WellFormedPart(HostPart(r.host, r.port, ShowStore(r.datastore, r.ns)))
    && '@' !in rest
    && !IsWhitespace(d[0]) && !IsWhitespace(d[|d| - 1])
  }

  lemma BracketedReparses(p: HostPart)
    requires WellFormedPart(p) && p.host.Some? && StartsWith(p.host.value, '[')
    ensures ParseHostPart(ShowPart(p)) == Ok(p)
  {
    var h := p.host.value;
    var x := h[1..|h| - 1];
    assert h == "[" + x + "]";
    ShowBracketed(x, p.port, p.store);
    if p.port.Some? {
      PortTail(p.port.value, p.store);
    } else {
      IndexUnique(p.store, ':', |p.store|);
      assert ShowTail(p.port, p.store) == p.store;
    }
    ParseOfBracketed(x, ShowTail(p.port, p.store));
  }

  lemma PlainReparses(p: HostPart)
    requires WellFormedPart(p) && (p.host.Some? ==> !StartsWith(p.host.value, '['))
    ensures ParseHostPart(ShowPart(p)) == Ok(p)
  {
    IndexUnique(p.store, ':', |p.store|);
    if p.host.None? {
      assert ShowPart(p) == p.store;
    } else if p.port.None? {
      var h := p.host.value;
      assert ShowPart(p) == h + [':'] + p.store;
      SplitAt(h, ':', p.store);
    } else {
      ShowFields(p.host.value, p.port.value, p.store);
      PortPrints(p.port.value);
      ParseOfFields(p.host.value, Decimal(p.port.value), p.store);
    }
  }

  lemma StoreReparses(datastore: string, ns: Option<string>)
    requires WellFormedStore(datastore, ns)
    ensures SplitStore(ShowStore(datastore, ns)) == (datastore, ns)
  {
    if ns.Some? {
      IndexAfter(datastore, '/', ns.value);
      assert ShowStore(datastore, ns) == datastore + ['/'] + ns.value;
    } else {
      assert ShowStore(datastore, ns) == datastore;
      var front := datastore[..|datastore| - 1];
      assert forall i :: 0 <= i < |front| ==> front[i] == datastore[i];
    }
  }

  /** Printing any well-formed repository and parsing it gives it back. */
  lemma ParseOfWellFormed(r: Repo)
    requires WellFormed(r)
    ensures Parse(Display(r)) == Ok(r)
  {
    var p := HostPart(r.host, r.port, ShowStore(r.datastore, r.ns));
    DisplayShape(r);
    TrimKeeps(Display(r));
    ReparseAuth(r.authId, ShowPart(p));
    if r.host.Some? && StartsWith(r.host.value, '[') { BracketedReparses(p); } else { PlainReparses(p); }
    StoreReparses(r.datastore, r.ns);
  }

  lemma BracketedWellFormed(rest: string)
    requires StartsWith(rest, '[') && ParseHostPart(rest).Ok?
    ensures WellFormedPart(ParseHostPart(rest).value)
  {
    var host, tail := BracketedShape(rest);
    ParseOfBracketed(host, tail);
    var h := "[" + host + "]";
    assert h[1..|h| - 1] == host;
  }

  lemma PartWellFormed(rest: string)
    requires ParseHostPart(rest).Ok?
    ensures WellFormedPart(ParseHostPart(rest).value)
  {
    if StartsWith(rest, '[') {
      BracketedWellFormed(rest);
    } else if |Split(rest, ':')| == 3 {
      ThreeFields(rest);
    } else if |Split(rest, ':')| == 2 {
      TwoFieldsPlain(rest);
    } else {
      SplitShape(rest, ':');
    }
  }

  lemma TwoFieldsPlain(rest: string)
    requires |Split(rest, ':')| == 2
    ensures var f := Split(rest, ':'); ':' !in f[0] && ':' !in f[1] && rest == f[0] + ":" + f[1]
  {
    TwoFields(rest);
    SplitShape(rest, ':');
    var b :| Split(rest, ':')[1..] == Split(b, ':') && rest == Split(rest, ':')[0] + ":" + b;
    SplitShape(b, ':');
    assert Split(rest, ':')[1] == Split(b, ':')[0];
  }

  lemma StoreWellFormed(store: string)
    requires SplitStore(store).0 != []
    ensures WellFormedStore(SplitStore(store).0, SplitStore(store).1)
  {
  }

  /** Everything parsing returns is well formed. */
  lemma ParsedIsWellFormed(input: string)
    requires Parse(input).Ok?
    ensures WellFormed(Parse(input).value)
  {
    var s := Trim(input);
    var r := Parse(input).value;
    var (a, rest) := SplitAuth(s);
    AuthJoins(s);
    HostPartFaithful(rest);
    PartWellFormed(rest);
    var p := ParseHostPart(rest).value;
    StoreRoundTrip(p.store);
    StoreWellFormed(p.store);
    PrintedEnds(s, a, rest, p);
    assert ShowHost(r.host, r.port) + ShowStore(r.datastore, r.ns) == ShowPart(p);
  }

  /** The repositories some string names are exactly the well-formed ones. */
  lemma NamedExactlyWhenWellFormed(r: Repo)
    ensures (exists s :: Parse(s) == Ok(r)) <==> WellFormed(r)
  {
    if WellFormed(r) {
      ParseOfWellFormed(r);
    }
    forall s | Parse(s) == Ok(r)
      ensures WellFormed(r)
    {
      ParsedIsWellFormed(s);
    }
  }

  /**
   * For every accepted string, printing the repository and parsing it again gives the same repository;
   * without a port, printing gives back the trimmed input itself.
   */
  lemma ParseOfDisplay(input: string)
    requires Parse(input).Ok?
    ensures Parse(Display(Parse(input).value)) == Parse(input)
    ensures Parse(input).value.port.None? ==> Display(Parse(input).value) == Trim(input)
  {
    ParsedIsWellFormed(input);
    ParseOfWellFormed(Parse(input).value);
    var (a, rest) := SplitAuth(Trim(input));
    AuthJoins(Trim(input));
    HostPartFaithful(rest);
    StoreRoundTrip(ParseHostPart(rest).value.store);
    DisplayShape(Parse(input).value);
  }
}
