/** Blacklist matching (app/internal/service/blacklist_service.go). */
module Blacklist {
  import opened Domain

  /** `regexp.MatchString`: a pattern that does not compile gives an error. */
  datatype RegexResult = NoMatch | Match | Malformed

  /** The library functions the matcher calls. */
  datatype Library = Library(regex: (string, string) -> RegexResult, equalFold: (string, string) -> bool)

  datatype Rule = Rule(id: EndpointId, pattern: string, patternType: string, methods: seq<string>)

  const REGEX := "regex"

  // ----- what it means to block -----

  predicate PathMatches(lib: Library, rule: Rule, path: string) {
    if rule.patternType == REGEX then !lib.regex(rule.pattern, path).NoMatch?
    else rule.pattern <= path
  }

  ghost predicate MethodCovered(lib: Library, rule: Rule, verb: string) {
    rule.methods == [] || exists m :: m in rule.methods && lib.equalFold(m, verb)
  }

  ghost predicate Blocks(lib: Library, rule: Rule, verb: string, path: string) {
    PathMatches(lib, rule, path) && MethodCovered(lib, rule, verb)
  }

  /** The verdict on a rule set, with no mention of order. */
  ghost predicate AnyBlocks(lib: Library, rules: seq<Rule>, verb: string, path: string) {
    exists r :: r in rules && Blocks(lib, r, verb, path)
  }

  /** What blocking means, in full: the methods are empty or one of them folds to the verb; and
      a regex rule's pattern matches or does not compile, any other rule's pattern is what the
      path starts with. */
  lemma BlocksMeans(lib: Library, r: Rule, verb: string, path: string)
    ensures Blocks(lib, r, verb, path) <==>
      && (r.methods == [] || exists m :: m in r.methods && lib.equalFold(m, verb))
      && (if r.patternType == "regex" then lib.regex(r.pattern, path) in {Match, Malformed}
          else exists tail: string :: path == r.pattern + tail)
  {
    if r.patternType != "regex" {
      if r.pattern <= path {
        assert path == r.pattern + path[|r.pattern|..];
      }
    }
  }

  // ----- the scan -----

  method ContainsMethod(lib: Library, methods: seq<string>, verb: string) returns (found: bool)
    ensures found <==> exists m :: m in methods && lib.equalFold(m, verb)
  {
    for i := 0 to |methods|
      invariant forall k :: 0 <= k < i ==> !lib.equalFold(methods[k], verb)
    {
      if lib.equalFold(methods[i], verb) {
        return true;
      }
    }
    return false;
  }

  ghost predicate FirstBlocking(lib: Library, rules: seq<Rule>, verb: string, path: string, i: nat) {
    && i < |rules|
    && Blocks(lib, rules[i], verb, path)
    && (forall k :: 0 <= k < i ==> !Blocks(lib, rules[k], verb, path))
  }

  method MatchRules(lib: Library, rules: seq<Rule>, verb: string, path: string) returns (hit: Option<Rule>)
    ensures hit.None? <==> !AnyBlocks(lib, rules, verb, path)
    ensures hit.Some? ==> exists i: nat :: FirstBlocking(lib, rules, verb, path, i) && rules[i] == hit.value
    ensures hit.Some? <==> (exists r :: (
      && r in rules
      && (r.methods == [] || exists m :: m in r.methods && lib.equalFold(m, verb))
      && (if r.patternType == "regex" then lib.regex(r.pattern, path) in {Match, Malformed}
          else exists tail: string :: path == r.pattern + tail)))
  {
    forall r: Rule { BlocksMeans(lib, r, verb, path); }
    for i := 0 to |rules|
      invariant forall k :: 0 <= k < i ==> !Blocks(lib, rules[k], verb, path)
    {
      if !PathMatches(lib, rules[i], path) {
        continue;
      }
      if |rules[i].methods| > 0 {
        var listed := ContainsMethod(lib, rules[i].methods, verb);
        if !listed {
          continue;
        }
      }
      assert FirstBlocking(lib, rules, verb, path, i);
      return Some(rules[i]);
    }
    return None;
  }

  // ----- properties -----

  /** Whether a request is blocked depends on the rules attached, not on their order, and
      attaching more rules never unblocks. */
  lemma MoreRulesBlockMore(lib: Library, rules: seq<Rule>, more: seq<Rule>, verb: string, path: string)
    requires forall r :: r in rules ==> r in more
    ensures AnyBlocks(lib, rules, verb, path) ==> AnyBlocks(lib, more, verb, path)
    ensures (forall r :: r in more ==> r in rules) ==>
      (AnyBlocks(lib, rules, verb, path) <==> AnyBlocks(lib, more, verb, path))
  {
    if r :| r in rules && Blocks(lib, r, verb, path) {
      assert r in more;
    }
    if (forall r :: r in more ==> r in rules) && AnyBlocks(lib, more, verb, path) {
      var r :| r in more && Blocks(lib, r, verb, path);
      assert r in rules;
    }
  }

  /** A path blocked by a prefix rule stays blocked however it is extended. */
  lemma ExtensionStaysBlocked(lib: Library, rules: seq<Rule>, rule: Rule, verb: string, path: string, tail: string)
    requires rule in rules && rule.patternType != REGEX && Blocks(lib, rule, verb, path)
    ensures AnyBlocks(lib, rules, verb, path + tail)
  {
    assert rule.pattern <= path + tail;
    assert Blocks(lib, rule, verb, path + tail);
  }

  /** An empty method list blocks whatever any other list blocks. */
  lemma EmptyListBlocksMost(lib: Library, rules: seq<Rule>, i: nat, verb: string, path: string)
    requires i < |rules| && AnyBlocks(lib, rules, verb, path)
    ensures AnyBlocks(lib, rules[i := rules[i].(methods := [])], verb, path)
  {
    var wide := rules[i].(methods := []);
    var rules' := rules[i := wide];
    var r :| r in rules && Blocks(lib, r, verb, path);
    var k :| 0 <= k < |rules| && rules[k] == r;
    assert rules'[k] in rules' && Blocks(lib, rules'[k], verb, path);
  }

  /** Breaking a rule's pattern never unblocks: with one that does not compile it blocks every
      path for the methods it covers, so the rule set blocks at least what it blocked before. */
  lemma MalformedFailsClosed(lib: Library, rules: seq<Rule>, i: nat, broken: string, verb: string, path: string)
    requires i < |rules| && lib.regex(broken, path).Malformed?
    ensures var rules' := rules[i := rules[i].(pattern := broken, patternType := REGEX)];
            && (MethodCovered(lib, rules[i], verb) ==> AnyBlocks(lib, rules', verb, path))
            && (AnyBlocks(lib, rules, verb, path) ==> AnyBlocks(lib, rules', verb, path))
  {
    var broke := rules[i].(pattern := broken, patternType := REGEX);
    var rules' := rules[i := broke];
    assert rules'[i] == broke;
    if MethodCovered(lib, rules[i], verb) {
      assert Blocks(lib, broke, verb, path);
    } else if AnyBlocks(lib, rules, verb, path) {
      var r :| r in rules && Blocks(lib, r, verb, path);
      var k :| 0 <= k < |rules| && rules[k] == r;
      assert rules'[k] == r;
    }
  }
}
