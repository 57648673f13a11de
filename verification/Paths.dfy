/** Capability-URL parsing (app/internal/proxy/handler.go) and path joining
    (app/internal/proxy/director.go). */
module Paths {
  import opened Domain

  const ROUTE_PREFIX := "/r/"

  function IndexOfSlash(s: string): (i: nat)
    ensures i <= |s|
    ensures forall k :: 0 <= k < i ==> s[k] != '/'
    ensures i < |s| ==> s[i] == '/'
  {
    if s == "" || s[0] == '/' then 0 else 1 + IndexOfSlash(s[1..])
  }

  datatype Parsed = Parsed(token: string, path: string)

  function ParseTokenAndPath(p: string): Option<Parsed> {
    if !(ROUTE_PREFIX <= p) then None
    else
      var rest := p[|ROUTE_PREFIX|..];
      if rest == "" then None
      else
        var slash := IndexOfSlash(rest);
        if slash == |rest| then Some(Parsed(rest, "/")) else Some(Parsed(rest[..slash], rest[slash..]))
  }

  predicate SlashFree(s: string) {
    forall k :: 0 <= k < |s| ==> s[k] != '/'
  }

  predicate SlashLed(s: string) {
    s != "" && s[0] == '/'
  }

  lemma IndexUnique(s: string, i: nat)
    requires i <= |s| && SlashFree(s[..i]) && (i < |s| ==> s[i] == '/')
    ensures IndexOfSlash(s) == i
  {
    assert forall k :: 0 <= k < i ==> s[..i][k] == s[k];
  }

  lemma BuiltParses(token: string, path: string)
    requires SlashFree(token) && SlashLed(path)
    ensures ParseTokenAndPath(ROUTE_PREFIX + token + path) == Some(Parsed(token, path))
  {
    var p := ROUTE_PREFIX + token + path;
    assert p[|ROUTE_PREFIX|..] == token + path;
    assert (token + path)[..|token|] == token && (token + path)[|token|..] == path;
    IndexUnique(token + path, |token|);
  }

  lemma BareTokenParses(token: string)
    requires SlashFree(token) && token != ""
    ensures ParseTokenAndPath(ROUTE_PREFIX + token) == Some(Parsed(token, "/"))
  {
    assert (ROUTE_PREFIX + token)[|ROUTE_PREFIX|..] == token;
    assert token[..|token|] == token;
    IndexUnique(token, |token|);
  }

  lemma Associative(a: string, b: string, c: string)
    ensures a + b + c == a + (b + c)
  {
  }

  lemma ParsedWasBuilt(token: string, path: string, p: string)
    requires ParseTokenAndPath(p) == Some(Parsed(token, path))
    ensures p == "/r/" + token + path || (p == "/r/" + token && path == "/" && token != "")
  {
    var rest := p[|ROUTE_PREFIX|..];
    assert p == ROUTE_PREFIX + rest;
    var slash := IndexOfSlash(rest);
    if slash < |rest| {
      assert rest == token + path;
      Associative(ROUTE_PREFIX, token, path);
    }
  }

  /** Parsing inverts building a capability URL, and accepts nothing else but the bare token. */
  lemma ParseInvertsBuild(token: string, path: string, p: string)
    requires SlashFree(token) && SlashLed(path)
    ensures ParseTokenAndPath(p) == Some(Parsed(token, path)) <==>
      p == "/r/" + token + path || (p == "/r/" + token && path == "/" && token != "")
  {
    BuiltParses(token, path);
    if token != "" { BareTokenParses(token); }
    if ParseTokenAndPath(p) == Some(Parsed(token, path)) { ParsedWasBuilt(token, path, p); }
  }

  /** What a parse gives is always a slash-free token and a slash-led path. */
  lemma ParsedShape(p: string)
    ensures ParseTokenAndPath(p).Some? ==>
      SlashFree(ParseTokenAndPath(p).value.token) && SlashLed(ParseTokenAndPath(p).value.path)
    ensures ParseTokenAndPath(p).None? <==> !("/r/" <= p) || p == "/r/"
  {
    if ROUTE_PREFIX <= p {
      assert p == ROUTE_PREFIX + p[|ROUTE_PREFIX|..];
    }
  }

  // ----- joining -----

  predicate SlashEnded(s: string) {
    s != "" && s[|s| - 1] == '/'
  }

  function SingleJoiningSlash(a: string, b: string): string {
    if SlashEnded(a) && SlashLed(b) then a + b[1..]
    else if !SlashEnded(a) && !SlashLed(b) then a + "/" + b
    else a + b
  }

  function Slashes(n: nat): string {
    seq(n, _ => '/')
  }

  /** How many slashes stand between the two parts after joining. */
  function Seam(m: nat, n: nat): nat {
    if m >= 1 && n >= 1 then m + n - 1 else if m == 0 && n == 0 then 1 else m + n
  }

  lemma SlashEnds(x: string, m: nat)
    requires !SlashEnded(x)
    ensures SlashEnded(x + Slashes(m)) <==> m >= 1
    ensures m == 0 ==> x + Slashes(m) == x
  {
  }

  lemma SlashLeads(n: nat, y: string)
    requires !SlashLed(y)
    ensures SlashLed(Slashes(n) + y) <==> n >= 1
    ensures n == 0 ==> Slashes(n) + y == y
    ensures n >= 1 ==> (Slashes(n) + y)[1..] == Slashes(n - 1) + y
  {
  }

  lemma SlashesBetween(x: string, m: nat, n: nat, y: string)
    ensures (x + Slashes(m)) + (Slashes(n) + y) == x + Slashes(m + n) + y
  {
    assert Slashes(m) + Slashes(n) == Slashes(m + n);
  }

  lemma JoinTwo(x: string, m: nat, n: nat, y: string)
    requires !SlashEnded(x) && !SlashLed(y) && m >= 1 && n >= 1
    ensures SingleJoiningSlash(x + Slashes(m), Slashes(n) + y) == x + Slashes(m + n - 1) + y
  {
    SlashEnds(x, m);
    SlashLeads(n, y);
    SlashesBetween(x, m, n - 1, y);
  }

  lemma JoinOne(x: string, m: nat, n: nat, y: string)
    requires !SlashEnded(x) && !SlashLed(y) && (m == 0 || n == 0)
    ensures SingleJoiningSlash(x + Slashes(m), Slashes(n) + y) == x + Slashes(if m + n == 0 then 1 else m + n) + y
  {
    SlashEnds(x, m);
    SlashLeads(n, y);
    if m + n == 0 {
      assert Slashes(1) == "/";
    } else {
      SlashesBetween(x, m, n, y);
    }
  }

  /** Of the `m` slashes the first part ends with and the `n` the second starts with at most one
      is removed: there is exactly one slash between them exactly if neither side has two. */
  lemma JoinSeam(x: string, m: nat, n: nat, y: string)
    requires !SlashEnded(x) && !SlashLed(y)
    ensures SingleJoiningSlash(x + Slashes(m), Slashes(n) + y) == x + Slashes(Seam(m, n)) + y
    ensures Seam(m, n) == (if m >= 1 && n >= 1 then m + n - 1 else if m == 0 && n == 0 then 1 else m + n)
    ensures Seam(m, n) == 1 <==> m <= 1 && n <= 1
    ensures Slashes(0) == "" && Slashes(m + 1) == Slashes(m) + "/"
  {
    if m >= 1 && n >= 1 {
      JoinTwo(x, m, n, y);
    } else {
      JoinOne(x, m, n, y);
    }
  }

  /** The path sent to the target is the path the blacklist checked exactly if the target's base
      path is empty or "/". */
  lemma TargetSeesCheckedPath(base: string, p: string)
    requires ParseTokenAndPath(p).Some?
    ensures var checked := ParseTokenAndPath(p).value.path;
            SingleJoiningSlash(base, checked) == checked <==> base == "" || base == "/"
  {
    ParsedShape(p);
    assert |base| == 1 && base[0] == '/' ==> base == "/";
    var checked := ParseTokenAndPath(p).value.path;
    if base == "/" {
      assert base + checked[1..] == checked;
    } else if base == "" {
      assert base + checked == checked;
    } else {
      assert |SingleJoiningSlash(base, checked)| >= |base| + |checked| - 1;
    }
  }
}
