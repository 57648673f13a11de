/** The owner's credentials: encrypted on import (app/internal/service/session_import.go),
    decrypted and injected per request (app/internal/proxy/injector.go). */
module Credentials {
  import opened Domain

  /** Any cipher: encryption draws a nonce and may fail, decryption may fail. */
  datatype Cipher = Cipher(encrypt: (string, nat) -> Option<string>, decrypt: string -> Option<string>)

  /** Decryption undoes encryption. */
  ghost predicate Lawful(c: Cipher) {
    forall x, n :: c.encrypt(x, n).Some? ==> c.decrypt(c.encrypt(x, n).value) == Some(x)
  }

  datatype CookieInput = CookieInput(name: string, value: string)
  datatype TokenInput = TokenInput(tokenType: string, headerName: string, value: string)

  datatype CookieRow = CookieRow(session: SessionId, name: string, sealed: string)
  datatype TokenRow = TokenRow(session: SessionId, tokenType: string, headerName: Option<string>, sealed: string)

  datatype Cookie = Cookie(name: string, value: string)

  const AUTHORIZATION := "Authorization"
  const COOKIE := "Cookie"

  // ----- listing -----

  function Filter<T>(p: T -> bool, xs: seq<T>): seq<T> {
    if xs == [] then []
    else
      var front, last := Filter(p, xs[..|xs| - 1]), xs[|xs| - 1];
      if p(last) then front + [last] else front
  }

  /** `listed` is a possible answer of a query for the rows that satisfy `p`: no ORDER BY. */
  ghost predicate Lists<T>(p: T -> bool, rows: seq<T>, listed: seq<T>) {
    multiset(listed) == multiset(Filter(p, rows))
  }

  lemma {:induction false} FilterCounts<T>(p: T -> bool, xs: seq<T>, x: T)
    ensures multiset(Filter(p, xs))[x] == if p(x) then multiset(xs)[x] else 0
  {
    if xs != [] {
      var n := |xs| - 1;
      assert xs == xs[..n] + [xs[n]];
      FilterCounts(p, xs[..n], x);
    }
  }

  /** Reordering what is filtered reorders the result. */
  lemma FilterOfReordering<T(!new)>(p: T -> bool, xs: seq<T>, ys: seq<T>)
    requires multiset(xs) == multiset(ys)
    ensures multiset(Filter(p, xs)) == multiset(Filter(p, ys))
  {
    var a, b := multiset(Filter(p, xs)), multiset(Filter(p, ys));
    forall x ensures a[x] == b[x] {
      FilterCounts(p, xs, x);
      FilterCounts(p, ys, x);
    }
    assert a == b;
  }

  /** Rows that all fail `p` followed by rows that all satisfy it. */
  lemma {:induction false} FilterSelects<T>(p: T -> bool, others: seq<T>, rows: seq<T>)
    requires (forall x :: x in others ==> !p(x)) && (forall x :: x in rows ==> p(x))
    ensures Filter(p, others + rows) == rows
    decreases |others| + |rows|
  {
    if rows != [] {
      var n := |rows| - 1;
      assert (others + rows)[..|others + rows| - 1] == others + rows[..n];
      FilterSelects(p, others, rows[..n]);
    } else if others != [] {
      var n := |others| - 1;
      assert (others + rows)[..n] == others[..n] + rows;
      FilterSelects(p, others[..n], rows);
    }
  }

  // ----- import -----

  /** The row a cookie becomes, whatever nonce is drawn. */
  predicate SealsCookie(c: Cipher, session: SessionId, x: CookieInput, r: CookieRow) {
    r.session == session && r.name == x.name && c.decrypt(r.sealed) == Some(x.value)
  }

  predicate SealsToken(c: Cipher, session: SessionId, x: TokenInput, r: TokenRow) {
    && r.session == session && c.decrypt(r.sealed) == Some(x.value)
    && r.headerName == (if x.headerName == "" then None else Some(x.headerName))
    && r.tokenType == (if x.tokenType == "" then "bearer" else x.tokenType)
  }

  /** `rows` are what the first inputs become. */
  predicate SealsCookies(c: Cipher, session: SessionId, inputs: seq<CookieInput>, rows: seq<CookieRow>) {
    |rows| <= |inputs| && forall i :: 0 <= i < |rows| ==> SealsCookie(c, session, inputs[i], rows[i])
  }

  predicate SealsTokens(c: Cipher, session: SessionId, inputs: seq<TokenInput>, rows: seq<TokenRow>) {
    |rows| <= |inputs| && forall i :: 0 <= i < |rows| ==> SealsToken(c, session, inputs[i], rows[i])
  }

  function CookiesOfSession(session: SessionId): CookieRow -> bool {
    (r: CookieRow) => r.session == session
  }

  function TokensOfSession(session: SessionId): TokenRow -> bool {
    (r: TokenRow) => r.session == session
  }

  class SessionImportService {
    const cipher: Cipher
    var cookies: seq<CookieRow>
    var tokens: seq<TokenRow>

    constructor (cipher: Cipher)
      ensures this.cipher == cipher && cookies == [] && tokens == []
    {
      this.cipher, cookies, tokens := cipher, [], [];
    }

    method ListCookies(session: SessionId) returns (listed: seq<CookieRow>)
      ensures Lists(CookiesOfSession(session), cookies, listed)
    {
      listed := [];
      for i := 0 to |cookies|
        invariant listed == Filter(CookiesOfSession(session), cookies[..i])
      {
        assert cookies[..i + 1][..i] == cookies[..i];
        if cookies[i].session == session {
          listed := listed + [cookies[i]];
        }
      }
      assert cookies[..|cookies|] == cookies;
    }

    method ListTokens(session: SessionId) returns (listed: seq<TokenRow>)
      ensures Lists(TokensOfSession(session), tokens, listed)
    {
      listed := [];
      for i := 0 to |tokens|
        invariant listed == Filter(TokensOfSession(session), tokens[..i])
      {
        assert tokens[..i + 1][..i] == tokens[..i];
        if tokens[i].session == session {
          listed := listed + [tokens[i]];
        }
      }
      assert tokens[..|tokens|] == tokens;
    }

    method SealCookies(session: SessionId, inputs: seq<CookieInput>, nonce: nat -> nat) returns (r: Result<seq<CookieRow>>)
      requires Lawful(cipher)
      ensures r.Ok? ==> |r.value| == |inputs| && SealsCookies(cipher, session, inputs, r.value)
      ensures r.Err? <==> exists i :: 0 <= i < |inputs| && cipher.encrypt(inputs[i].value, nonce(i)).None?
    {
      var rows := [];
      for i := 0 to |inputs|
        invariant |rows| == i && forall k :: 0 <= k < i ==> SealsCookie(cipher, session, inputs[k], rows[k])
        invariant forall k :: 0 <= k < i ==> cipher.encrypt(inputs[k].value, nonce(k)).Some?
      {
        var enc := cipher.encrypt(inputs[i].value, nonce(i));
        if enc.None? {
          return Err;
        }
        rows := rows + [CookieRow(session, inputs[i].name, enc.value)];
      }
      r := Ok(rows);
    }

    method SealTokens(session: SessionId, inputs: seq<TokenInput>, nonce: nat -> nat) returns (r: Result<seq<TokenRow>>)
      requires Lawful(cipher)
      ensures r.Ok? ==> |r.value| == |inputs| && SealsTokens(cipher, session, inputs, r.value)
      ensures r.Err? <==> exists i :: 0 <= i < |inputs| && cipher.encrypt(inputs[i].value, nonce(i)).None?
    {
      var rows := [];
      for i := 0 to |inputs|
        invariant |rows| == i && forall k :: 0 <= k < i ==> SealsToken(cipher, session, inputs[k], rows[k])
        invariant forall k :: 0 <= k < i ==> cipher.encrypt(inputs[k].value, nonce(k)).Some?
      {
        var enc := cipher.encrypt(inputs[i].value, nonce(i));
        if enc.None? {
          return Err;
        }
        var tokenType := if inputs[i].tokenType == "" then "bearer" else inputs[i].tokenType;
        var header := if inputs[i].headerName == "" then None else Some(inputs[i].headerName);
        rows := rows + [TokenRow(session, tokenType, header, enc.value)];
      }
      r := Ok(rows);
    }

    /** Rows are inserted one by one, cookies first: `cookieInserts` and `tokenInserts` say how
        many inserts succeed. A failure leaves what was inserted before it. */
    method Import(session: SessionId, cookieInputs: seq<CookieInput>, tokenInputs: seq<TokenInput>,
                  nonce: nat -> nat, cookieInserts: nat, tokenInserts: nat)
      returns (ok: bool, ghost cs: seq<CookieRow>, ghost ts: seq<TokenRow>)
      requires Lawful(cipher)
      modifies this
      ensures cookies == old(cookies) + cs && SealsCookies(cipher, session, cookieInputs, cs)
      ensures tokens == old(tokens) + ts && SealsTokens(cipher, session, tokenInputs, ts)
      ensures forall i :: 0 <= i < |cs| ==>
        cs[i].session == session && cs[i].name == cookieInputs[i].name
        && cipher.decrypt(cs[i].sealed) == Some(cookieInputs[i].value)
      ensures forall i :: 0 <= i < |ts| ==>
        && ts[i].session == session && cipher.decrypt(ts[i].sealed) == Some(tokenInputs[i].value)
        && ts[i].headerName == (if tokenInputs[i].headerName == "" then None else Some(tokenInputs[i].headerName))
        && ts[i].tokenType == (if tokenInputs[i].tokenType == "" then "bearer" else tokenInputs[i].tokenType)
      ensures var cookiesSeal := forall i :: 0 <= i < |cookieInputs| ==> cipher.encrypt(cookieInputs[i].value, nonce(i)).Some?;
              var tokensSeal := forall i :: 0 <= i < |tokenInputs| ==> cipher.encrypt(tokenInputs[i].value, nonce(i)).Some?;
              && |cs| == (if !cookiesSeal then 0 else if cookieInserts < |cookieInputs| then cookieInserts else |cookieInputs|)
              && (!cookiesSeal || cookieInserts < |cookieInputs| || !tokensSeal ==> ts == [])
              && (cookiesSeal && cookieInserts >= |cookieInputs| && tokensSeal ==>
                    |ts| == if tokenInserts < |tokenInputs| then tokenInserts else |tokenInputs|)
              && (ok <==> cookiesSeal && tokensSeal && cookieInserts >= |cookieInputs| && tokenInserts >= |tokenInputs|)
    {
      ok, cs, ts := false, [], [];
      var sealedCookies := SealCookies(session, cookieInputs, nonce);
      if sealedCookies.Err? {
        return;
      }
      var storedCookies := sealedCookies.value[..UpTo(cookieInserts, |cookieInputs|)];
      cookies, cs := cookies + storedCookies, storedCookies;
      if cookieInserts < |cookieInputs| {
        return;
      }
      var sealedTokens := SealTokens(session, tokenInputs, nonce);
      if sealedTokens.Err? {
        return;
      }
      var storedTokens := sealedTokens.value[..UpTo(tokenInserts, |tokenInputs|)];
      tokens, ts := tokens + storedTokens, storedTokens;
      ok := tokenInserts >= |tokenInputs|;
    }
  }

  // ----- injection plan -----

  /** `http.Header`: canonical names to values. */
  type Header = map<string, seq<string>>

  function Values(h: Header, name: string): seq<string> {
    if name in h then h[name] else []
  }

  datatype Plan = Plan(cookies: seq<Cookie>, headers: Header)

  function HeaderName(r: TokenRow): string {
    if r.headerName.Some? && r.headerName.value != "" then r.headerName.value else AUTHORIZATION
  }

  /** The values that go under canonical name `name`, in row order. */
  function TokenValues(c: Cipher, canon: string -> string, rows: seq<TokenRow>, name: string): seq<string> {
    if rows == [] then []
    else
      var front, last := TokenValues(c, canon, rows[..|rows| - 1], name), rows[|rows| - 1];
      if canon(HeaderName(last)) == name && c.decrypt(last.sealed).Some?
      then front + [c.decrypt(last.sealed).value] else front
  }

  /** Every row is decrypted or the plan fails; order is row order. */
  method BuildInjectionPlan(c: Cipher, canon: string -> string, cookieRows: seq<CookieRow>, tokenRows: seq<TokenRow>)
    returns (r: Result<Plan>)
    ensures r.Err? <==>
      (exists i :: 0 <= i < |cookieRows| && c.decrypt(cookieRows[i].sealed).None?)
      || (exists i :: 0 <= i < |tokenRows| && c.decrypt(tokenRows[i].sealed).None?)
    ensures r.Ok? ==> |r.value.cookies| == |cookieRows| && forall i :: 0 <= i < |cookieRows| ==>
      r.value.cookies[i].name == cookieRows[i].name && Some(r.value.cookies[i].value) == c.decrypt(cookieRows[i].sealed)
    ensures r.Ok? ==> forall name :: Values(r.value.headers, name) == TokenValues(c, canon, tokenRows, name)
    ensures r.Ok? ==> forall name :: name in r.value.headers ==> exists x :: canon(x) == name
  {
    var cookies: seq<Cookie> := [];
    for i := 0 to |cookieRows|
      invariant |cookies| == i
      invariant forall k :: 0 <= k < i ==>
        cookies[k].name == cookieRows[k].name && Some(cookies[k].value) == c.decrypt(cookieRows[k].sealed)
    {
      var value := c.decrypt(cookieRows[i].sealed);
      if value.None? {
        return Err;
      }
      cookies := cookies + [Cookie(cookieRows[i].name, value.value)];
    }
    var headers: Header := map[];
    for i := 0 to |tokenRows|
      invariant forall k :: 0 <= k < i ==> c.decrypt(tokenRows[k].sealed).Some?
      invariant forall name :: Values(headers, name) == TokenValues(c, canon, tokenRows[..i], name)
      invariant forall name :: name in headers ==> exists x :: canon(x) == name
    {
      var value := c.decrypt(tokenRows[i].sealed);
      if value.None? {
        return Err;
      }
      assert tokenRows[..i + 1][..i] == tokenRows[..i];
      var name := canon(HeaderName(tokenRows[i]));
      headers := headers[name := Values(headers, name) + [value.value]];
    }
    assert tokenRows[..|tokenRows|] == tokenRows;
    r := Ok(Plan(cookies, headers));
  }

  // ----- the outgoing request -----

  /** What `AddCookie` leaves in the Cookie header: the texts joined by "; ". */
  function Joined(text: Cookie -> string, cookies: seq<Cookie>): string {
    if cookies == [] then ""
    else if |cookies| == 1 then text(cookies[0])
    else Joined(text, cookies[..|cookies| - 1]) + "; " + text(cookies[|cookies| - 1])
  }

  class OutgoingRequest {
    var header: Header

    constructor (header: Header)
      ensures this.header == header
    {
      this.header := header;
    }

    method AddCookie(s: string)
      requires s != ""
      modifies this
      ensures Values(header, COOKIE) ==
        [if Values(old(header), COOKIE) == [] || Values(old(header), COOKIE)[0] == "" then s
         else Values(old(header), COOKIE)[0] + "; " + s]
      ensures forall name :: name != COOKIE ==> Values(header, name) == Values(old(header), name)
    {
      var current := Values(header, COOKIE);
      header := header[COOKIE := [if current == [] || current[0] == "" then s else current[0] + "; " + s]];
    }

    method AddCookies(cookies: seq<Cookie>, text: Cookie -> string)
      requires forall c :: text(c) != ""
      requires Values(header, COOKIE) == []
      modifies this
      ensures Values(header, COOKIE) == if cookies == [] then [] else [Joined(text, cookies)]
      ensures forall name :: name != COOKIE ==> Values(header, name) == Values(old(header), name)
    {
      for i := 0 to |cookies|
        invariant Values(header, COOKIE) == if i == 0 then [] else [Joined(text, cookies[..i])]
        invariant i > 0 ==> Joined(text, cookies[..i]) != ""
        invariant forall name :: name != COOKIE ==> Values(header, name) == Values(old(header), name)
      {
        assert cookies[..i + 1][..i] == cookies[..i];
        AddCookie(text(cookies[i]));
      }
      assert cookies[..|cookies|] == cookies;
    }

    /** The plan's header map is walked in an order Go chooses. */
    method AddHeaders(headers: Header)
      modifies this
      ensures forall name :: Values(header, name) == Values(old(header), name) + Values(headers, name)
    {
      var rest := headers.Keys;
      while rest != {}
        invariant rest <= headers.Keys
        invariant forall name ::
          Values(header, name) == Values(old(header), name) + (if name in rest then [] else Values(headers, name))
        decreases rest
      {
        var name :| name in rest;
        header := header[name := Values(header, name) + headers[name]];
        rest := rest - {name};
      }
    }

    /** The guest's Cookie and Authorization are gone; every other header keeps the guest's
        values, followed by the owner's in row order. */
    method Apply(p: Plan, text: Cookie -> string)
      requires forall c :: text(c) != ""
      modifies this
      ensures Values(header, "Cookie") ==
        (if p.cookies == [] then [] else [Joined(text, p.cookies)]) + Values(p.headers, "Cookie")
      ensures Values(header, "Authorization") == Values(p.headers, "Authorization")
      ensures forall name :: name != "Cookie" && name != "Authorization" ==>
        Values(header, name) == Values(old(header), name) + Values(p.headers, name)
    {
      header := header - {COOKIE};
      header := header - {AUTHORIZATION};
      AddCookies(p.cookies, text);
      AddHeaders(p.headers);
    }
  }

  // ----- the round trip -----

  function Opened(c: Cipher, r: CookieRow): Cookie {
    Cookie(r.name, if c.decrypt(r.sealed).Some? then c.decrypt(r.sealed).value else "")
  }

  function Image<A, B>(f: A -> B, xs: seq<A>): seq<B> {
    seq(|xs|, i requires 0 <= i < |xs| => f(xs[i]))
  }

  lemma ImageParts<A, B>(f: A -> B, xs: seq<A>, j: nat)
    requires j < |xs|
    ensures multiset(Image(f, xs)) == multiset(Image(f, xs[..j] + xs[j + 1..])) + multiset{f(xs[j])}
  {
    var a, b := Image(f, xs[..j]), Image(f, xs[j + 1..]);
    assert Image(f, xs) == a + [f(xs[j])] + b;
    assert Image(f, xs[..j] + xs[j + 1..]) == a + b;
  }

  lemma RemoveOne<T>(xs: seq<T>, ys: seq<T>, j: nat)
    requires xs != [] && multiset(xs) == multiset(ys) && j < |ys| && ys[j] == xs[0]
    ensures multiset(xs[1..]) == multiset(ys[..j] + ys[j + 1..])
  {
    assert xs == [xs[0]] + xs[1..];
    assert ys == ys[..j] + [ys[j]] + ys[j + 1..];
    assert multiset(xs[1..]) == multiset(xs) - multiset{xs[0]};
  }

  /** Reordering rows reorders what is computed from each of them. */
  lemma {:induction false} ImageOfReordering<A, B>(f: A -> B, xs: seq<A>, ys: seq<A>)
    requires multiset(xs) == multiset(ys)
    ensures multiset(Image(f, xs)) == multiset(Image(f, ys))
    decreases |xs|
  {
    if xs == [] {
      assert |ys| == |multiset(ys)| == 0;
    } else {
      assert xs[0] in multiset(ys);
      var j :| 0 <= j < |ys| && ys[j] == xs[0];
      var zs := ys[..j] + ys[j + 1..];
      RemoveOne(xs, ys, j);
      ImageOfReordering(f, xs[1..], zs);
      ImageParts(f, xs, 0);
      assert xs[..0] + xs[1..] == xs[1..];
      ImageParts(f, ys, j);
    }
  }

  function Imported(inputs: seq<CookieInput>): seq<Cookie> {
    seq(|inputs|, i requires 0 <= i < |inputs| => Cookie(inputs[i].name, inputs[i].value))
  }

  /** Import, then inject: the table may hold other sessions' rows and list them in any order;
      the plan's cookies are the imported ones, as a multiset. */
  lemma ImportedCookiesComeBack(c: Cipher, session: SessionId, inputs: seq<CookieInput>, before: seq<CookieRow>,
                                rows: seq<CookieRow>, listed: seq<CookieRow>, plan: seq<Cookie>)
    requires forall r :: r in before ==> r.session != session
    requires |rows| == |inputs| && SealsCookies(c, session, inputs, rows)
    requires Lists(CookiesOfSession(session), before + rows, listed)
    requires |plan| == |listed| && forall i :: 0 <= i < |listed| ==>
      plan[i].name == listed[i].name && Some(plan[i].value) == c.decrypt(listed[i].sealed)
    ensures multiset(plan) == multiset(Imported(inputs))
  {
    var open := (r: CookieRow) => Opened(c, r);
    FilterSelects(CookiesOfSession(session), before, rows);
    ImageOfReordering(open, rows, listed);
    assert plan == Image(open, listed);
    assert Image(open, rows) == Imported(inputs);
  }

  /** The tokens an owner imported under a header, "Authorization" standing for none. */
  function InputValues(canon: string -> string, inputs: seq<TokenInput>, name: string): seq<string> {
    if inputs == [] then []
    else
      var front, last := InputValues(canon, inputs[..|inputs| - 1], name), inputs[|inputs| - 1];
      if canon(if last.headerName == "" then AUTHORIZATION else last.headerName) == name then front + [last.value] else front
  }

  lemma {:induction false} TokensInOrder(c: Cipher, canon: string -> string, session: SessionId,
                                         inputs: seq<TokenInput>, rows: seq<TokenRow>, name: string)
    requires |rows| == |inputs| && SealsTokens(c, session, inputs, rows)
    ensures TokenValues(c, canon, rows, name) == InputValues(canon, inputs, name)
  {
    if inputs != [] {
      var n := |inputs| - 1;
      TokensInOrder(c, canon, session, inputs[..n], rows[..n], name);
    }
  }

  /** The header a token comes back under, input by input: its own, or "Authorization". */
  lemma InputValuesGrow(canon: string -> string, inputs: seq<TokenInput>, x: TokenInput, name: string)
    ensures InputValues(canon, [], name) == []
    ensures InputValues(canon, inputs + [x], name) == InputValues(canon, inputs, name) +
      if canon(if x.headerName == "" then "Authorization" else x.headerName) == name then [x.value] else []
  {
    assert (inputs + [x])[..|inputs|] == inputs;
  }

  /** The header a stored token is injected under, row by row, in row order. */
  lemma TokenValuesGrow(c: Cipher, canon: string -> string, rows: seq<TokenRow>, r: TokenRow, name: string)
    requires c.decrypt(r.sealed).Some?
    ensures TokenValues(c, canon, [], name) == []
    ensures TokenValues(c, canon, rows + [r], name) == TokenValues(c, canon, rows, name) +
      if canon(if r.headerName.None? || r.headerName.value == "" then "Authorization" else r.headerName.value) == name
      then [c.decrypt(r.sealed).value] else []
  {
    assert (rows + [r])[..|rows|] == rows;
  }

  function GoesUnder(c: Cipher, canon: string -> string, name: string): TokenRow -> bool {
    (r: TokenRow) => canon(HeaderName(r)) == name && c.decrypt(r.sealed).Some?
  }

  function TokenValue(c: Cipher): TokenRow -> string {
    (r: TokenRow) => if c.decrypt(r.sealed).Some? then c.decrypt(r.sealed).value else ""
  }

  lemma {:induction false} TokenValuesAreFiltered(c: Cipher, canon: string -> string, rows: seq<TokenRow>, name: string)
    ensures TokenValues(c, canon, rows, name) == Image(TokenValue(c), Filter(GoesUnder(c, canon, name), rows))
  {
    if rows != [] {
      TokenValuesAreFiltered(c, canon, rows[..|rows| - 1], name);
    }
  }

  lemma TokensReordered(c: Cipher, canon: string -> string, xs: seq<TokenRow>, ys: seq<TokenRow>, name: string)
    requires multiset(xs) == multiset(ys)
    ensures multiset(TokenValues(c, canon, xs, name)) == multiset(TokenValues(c, canon, ys, name))
  {
    var under := GoesUnder(c, canon, name);
    TokenValuesAreFiltered(c, canon, xs, name);
    TokenValuesAreFiltered(c, canon, ys, name);
    FilterOfReordering(under, xs, ys);
    ImageOfReordering(TokenValue(c), Filter(under, xs), Filter(under, ys));
  }

  /** The imported tokens come back under their headers, as a multiset for each header. */
  lemma ImportedTokensComeBack(c: Cipher, canon: string -> string, session: SessionId, inputs: seq<TokenInput>,
                               before: seq<TokenRow>, rows: seq<TokenRow>, listed: seq<TokenRow>, name: string)
    requires forall r :: r in before ==> r.session != session
    requires |rows| == |inputs| && SealsTokens(c, session, inputs, rows)
    requires Lists(TokensOfSession(session), before + rows, listed)
    ensures multiset(TokenValues(c, canon, listed, name)) == multiset(InputValues(canon, inputs, name))
  {
    FilterSelects(TokensOfSession(session), before, rows);
    TokensInOrder(c, canon, session, inputs, rows, name);
    TokensReordered(c, canon, rows, listed, name);
  }

  /** What is listed of a session's sealed rows can be decrypted. */
  lemma ListedCookiesOpen(c: Cipher, session: SessionId, inputs: seq<CookieInput>, before: seq<CookieRow>,
                          rows: seq<CookieRow>, listed: seq<CookieRow>)
    requires forall r :: r in before ==> r.session != session
    requires SealsCookies(c, session, inputs, rows) && Lists(CookiesOfSession(session), before + rows, listed)
    ensures forall i :: 0 <= i < |listed| ==> c.decrypt(listed[i].sealed).Some?
  {
    FilterSelects(CookiesOfSession(session), before, rows);
    forall i | 0 <= i < |listed| ensures c.decrypt(listed[i].sealed).Some? {
      assert listed[i] in multiset(rows);
    }
  }

  lemma ListedTokensOpen(c: Cipher, session: SessionId, inputs: seq<TokenInput>, before: seq<TokenRow>,
                         rows: seq<TokenRow>, listed: seq<TokenRow>)
    requires forall r :: r in before ==> r.session != session
    requires SealsTokens(c, session, inputs, rows) && Lists(TokensOfSession(session), before + rows, listed)
    ensures forall i :: 0 <= i < |listed| ==> c.decrypt(listed[i].sealed).Some?
  {
    FilterSelects(TokensOfSession(session), before, rows);
    forall i | 0 <= i < |listed| ensures c.decrypt(listed[i].sealed).Some? {
      assert listed[i] in multiset(rows);
    }
  }

  /** Import for a new session, then build its plan: if everything is stored and encryption does
      not fail there is a plan, and a plan holds exactly what was imported, whatever other
      sessions have stored and whatever order rows are listed in. */
  method ImportThenPlan(service: SessionImportService, canon: string -> string, session: SessionId,
                        cookieInputs: seq<CookieInput>, tokenInputs: seq<TokenInput>, nonce: nat -> nat,
                        cookieInserts: nat, tokenInserts: nat) returns (r: Result<Plan>)
    requires Lawful(service.cipher)
    requires forall row :: row in service.cookies ==> row.session != session
    requires forall row :: row in service.tokens ==> row.session != session
    modifies service
    ensures r.Ok? <==>
      && cookieInserts >= |cookieInputs| && tokenInserts >= |tokenInputs|
      && (forall i :: 0 <= i < |cookieInputs| ==> service.cipher.encrypt(cookieInputs[i].value, nonce(i)).Some?)
      && (forall i :: 0 <= i < |tokenInputs| ==> service.cipher.encrypt(tokenInputs[i].value, nonce(i)).Some?)
    ensures r.Ok? ==> (multiset(r.value.cookies) ==
      multiset(seq(|cookieInputs|, i requires 0 <= i < |cookieInputs| => Cookie(cookieInputs[i].name, cookieInputs[i].value))))
    ensures r.Ok? ==> forall name ::
      multiset(Values(r.value.headers, name)) == multiset(InputValues(canon, tokenInputs, name))
  {
    ghost var cookies, tokens := service.cookies, service.tokens;
    var ok, cs, ts := service.Import(session, cookieInputs, tokenInputs, nonce, cookieInserts, tokenInserts);
    if !ok {
      return Err;
    }
    var cookieRows := service.ListCookies(session);
    var tokenRows := service.ListTokens(session);
    ListedCookiesOpen(service.cipher, session, cookieInputs, cookies, cs, cookieRows);
    ListedTokensOpen(service.cipher, session, tokenInputs, tokens, ts, tokenRows);
    r := BuildInjectionPlan(service.cipher, canon, cookieRows, tokenRows);
    if r.Ok? {
      ImportedCookiesComeBack(service.cipher, session, cookieInputs, cookies, cs, cookieRows, r.value.cookies);
      forall name ensures multiset(Values(r.value.headers, name)) == multiset(InputValues(canon, tokenInputs, name)) {
        ImportedTokensComeBack(service.cipher, canon, session, tokenInputs, tokens, ts, tokenRows, name);
      }
    }
  }
}
