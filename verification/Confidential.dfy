/** Rules for protected keys: which rule applies to a request, and when its signature is
    accepted. */
module Confidential {
  import opened Wildcard
  import Text
  import opened TimedStore

  datatype Rule = Rule(prefix: string, algorithm: string, publicKey: string, confidential: bool, readOnly: bool)

  /** The zero value: no rule. */
  const NO_RULE := Rule("", "", "", false, false)

  // ----- Which rule -----

  /** The rules whose pattern matches the directory, in order. */
  function Matching(engine: Engine, rules: seq<Rule>, directory: string): (matching: seq<Rule>)
    ensures forall r :: r in matching <==> r in rules && Matches(engine, r.prefix, directory)
  {
    if rules == [] then []
    else
      var n := |rules| - 1;
      assert rules == rules[..n] + [rules[n]];
      Matching(engine, rules[..n], directory) + (if Matches(engine, rules[n].prefix, directory) then [rules[n]] else [])
  }

  lemma MatchingNext(engine: Engine, rules: seq<Rule>, directory: string, i: nat)
    requires i < |rules|
    ensures Matching(engine, rules[..i + 1], directory)
            == Matching(engine, rules[..i], directory)
               + if Matches(engine, rules[i].prefix, directory) then [rules[i]] else []
  {
    hide Matches;
    assert rules[..i + 1][..i] == rules[..i];
  }

  predicate HasKeyAt(entries: seq<Rule>, publicKey: string, i: int) {
    0 <= i < |entries| && entries[i].publicKey == publicKey
  }

  function LastWithKey(entries: seq<Rule>, publicKey: string): (at: int)
    ensures at == -1 || HasKeyAt(entries, publicKey, at)
    ensures forall i | at < i :: !HasKeyAt(entries, publicKey, i)
  {
    if entries == [] then -1
    else
      var n := |entries| - 1;
      if entries[n].publicKey == publicKey then n
      else
        var at := LastWithKey(entries[..n], publicKey);
        assert forall i | at < i < n :: !HasKeyAt(entries[..n], publicKey, i) && entries[..n][i] == entries[i];
        at
  }

  /** The rule for a request among the matching ones: the last with the request's key, if
      that one has a pattern, else the first. */
  function Chosen(entries: seq<Rule>, publicKey: string): Rule {
    var last := LastWithKey(entries, publicKey);
    if entries == [] then NO_RULE
    else if publicKey == "" || last == -1 || entries[last].prefix == "" then entries[0]
    else entries[last]
  }

  class ConfidentialRules {
    var rules: seq<Rule>
    const matcher: Matcher

    constructor (engine: Engine)
      ensures rules == [] && matcher.Valid() && matcher.engine == engine && fresh(matcher)
    {
      rules := [];
      matcher := new Matcher(engine);
    }

    /** A new configuration; the compiled patterns stay. */
    method Reload(rules: seq<Rule>)
      requires matcher.Valid()
      modifies `rules
      ensures this.rules == rules && matcher.Valid()
    {
      this.rules := rules;
    }

    method MatchingRules(directory: string) returns (entries: seq<Rule>)
      requires matcher.Valid()
      modifies matcher
      ensures matcher.Valid() && entries == Matching(matcher.engine, rules, directory)
    {
      assert rules[..0] == [] && Matching(matcher.engine, [], directory) == [];
      hide Matching, Matches;
      entries := [];
      for i := 0 to |rules|
        invariant matcher.Valid() && entries == Matching(matcher.engine, rules[..i], directory)
      {
        var matched := matcher.Match(rules[i].prefix, directory);
        MatchingNext(matcher.engine, rules, directory, i);
        if matched {
          entries := entries + [rules[i]];
        }
      }
      assert rules[..|rules|] == rules;
    }

    method GetConfidentialInfo(directory: string, publicKey: string) returns (result: Rule)
      requires matcher.Valid()
      modifies matcher
      ensures matcher.Valid()
      ensures result == Chosen(Matching(matcher.engine, rules, directory), publicKey)
    {
      var entries := MatchingRules(directory);

      result := NO_RULE;
      for i := 0 to |entries|
        invariant result == if LastWithKey(entries[..i], publicKey) == -1 then NO_RULE
                            else entries[LastWithKey(entries[..i], publicKey)]
      {
        assert entries[..i + 1][..i] == entries[..i];
        if entries[i].publicKey == publicKey {
          result := entries[i];
        }
      }
      assert entries[..|entries|] == entries;

      if result.prefix == "" && |entries| > 0 {
        result := entries[0];
      }
      if publicKey == "" && |entries| > 0 {
        return entries[0];
      }
    }
  }

  // ----- The choice, as the configuration shows it -----

  predicate MatchesAt(engine: Engine, rules: seq<Rule>, directory: string, i: int) {
    0 <= i < |rules| && Matches(engine, rules[i].prefix, directory)
  }

  predicate MatchesKeyAt(engine: Engine, rules: seq<Rule>, directory: string, publicKey: string, i: int) {
    MatchesAt(engine, rules, directory, i) && rules[i].publicKey == publicKey
  }

  predicate IsFirst(engine: Engine, rules: seq<Rule>, directory: string, i: int) {
    MatchesAt(engine, rules, directory, i) && forall j | 0 <= j < i :: !MatchesAt(engine, rules, directory, j)
  }

  predicate IsFirstWithKey(engine: Engine, rules: seq<Rule>, directory: string, publicKey: string, i: int) {
    && MatchesKeyAt(engine, rules, directory, publicKey, i)
    && forall j | 0 <= j < i :: !MatchesKeyAt(engine, rules, directory, publicKey, j)
  }

  predicate IsLastWithKey(engine: Engine, rules: seq<Rule>, directory: string, publicKey: string, i: int) {
    && MatchesKeyAt(engine, rules, directory, publicKey, i)
    && forall j | i < j < |rules| :: !MatchesKeyAt(engine, rules, directory, publicKey, j)
  }

  /** The first of the matching rules is the first rule that matches. */
  lemma {:induction false} FirstMatching(engine: Engine, rules: seq<Rule>, directory: string) returns (first: int)
    ensures var entries := Matching(engine, rules, directory);
      if entries == [] then first == -1 && forall j :: !MatchesAt(engine, rules, directory, j)
      else IsFirst(engine, rules, directory, first) && rules[first] == entries[0]
  {
    first := -1;
    if rules != [] {
      var n := |rules| - 1;
      first := FirstMatching(engine, rules[..n], directory);
      assert forall j | j != n ::
               MatchesAt(engine, rules, directory, j) <==> MatchesAt(engine, rules[..n], directory, j);
      if first == -1 && MatchesAt(engine, rules, directory, n) {
        first := n;
      }
    }
  }

  /** The last of the matching rules with a key is the last rule that matches and has it. */
  lemma {:induction false} LastMatching(engine: Engine, rules: seq<Rule>, directory: string, publicKey: string)
      returns (last: int)
    ensures var entries := Matching(engine, rules, directory);
      var at := LastWithKey(entries, publicKey);
      if at == -1 then last == -1 && forall j :: !MatchesKeyAt(engine, rules, directory, publicKey, j)
      else IsLastWithKey(engine, rules, directory, publicKey, last) && rules[last] == entries[at]
  {
    last := -1;
    if rules != [] {
      var n := |rules| - 1;
      var entries, before := Matching(engine, rules, directory), Matching(engine, rules[..n], directory);
      last := LastMatching(engine, rules[..n], directory, publicKey);
      assert forall j | j != n ::
               MatchesKeyAt(engine, rules, directory, publicKey, j)
               <==> MatchesKeyAt(engine, rules[..n], directory, publicKey, j);
      if Matches(engine, rules[n].prefix, directory) {
        assert entries == before + [rules[n]] && entries[..|before|] == before;
        if rules[n].publicKey == publicKey {
          last := n;
        }
      } else {
        assert entries == before;
      }
    }
  }

  /** Rules without pattern match only the empty name. */
  predicate Named(rules: seq<Rule>, directory: string) {
    directory != "" || forall r | r in rules :: r.prefix != ""
  }

  lemma MatchingHavePattern(engine: Engine, rules: seq<Rule>, directory: string, i: int)
    requires Named(rules, directory) && MatchesAt(engine, rules, directory, i)
    ensures rules[i].prefix != ""
  {
    MatchesMeaning(engine, "", directory);
  }

  /** Which rule is chosen, by where it stands in the configuration. */
  lemma ChosenIs(engine: Engine, rules: seq<Rule>, directory: string, publicKey: string, i: int)
    requires publicKey != ""
    ensures IsLastWithKey(engine, rules, directory, publicKey, i) && rules[i].prefix != "" ==>
              Chosen(Matching(engine, rules, directory), publicKey) == rules[i]
    ensures IsFirst(engine, rules, directory, i) ==>
              (forall j :: !MatchesKeyAt(engine, rules, directory, publicKey, j)) ==>
              Chosen(Matching(engine, rules, directory), publicKey) == rules[i]
  {
    var last := LastMatching(engine, rules, directory, publicKey);
    var first := FirstMatching(engine, rules, directory);
  }

  /** Whenever a rule matches, one that matches is chosen. */
  lemma ChosenMatches(engine: Engine, rules: seq<Rule>, directory: string, publicKey: string)
    ensures var chosen := Chosen(Matching(engine, rules, directory), publicKey);
      if exists i :: MatchesAt(engine, rules, directory, i) then
        chosen in rules && Matches(engine, chosen.prefix, directory)
      else chosen == NO_RULE
  {
    var first := FirstMatching(engine, rules, directory);
    var last := LastMatching(engine, rules, directory, publicKey);
  }

  /** A request with a key gets a rule with that key exactly if some rule that matches has it;
      and, where a rule without pattern matches, which it does for the empty name alone, if the
      last rule that has the key is not such a one or the first that matches has the key. */
  lemma ChosenHasKey(engine: Engine, rules: seq<Rule>, directory: string, publicKey: string)
    requires publicKey != ""
    ensures Chosen(Matching(engine, rules, directory), publicKey).publicKey == publicKey <==>
            exists i :: IsLastWithKey(engine, rules, directory, publicKey, i)
                        && (rules[i].prefix != "" || FirstHasKey(engine, rules, directory, publicKey))
    ensures Named(rules, directory) ==>
              (Chosen(Matching(engine, rules, directory), publicKey).publicKey == publicKey
               <==> exists i :: MatchesKeyAt(engine, rules, directory, publicKey, i))
  {
    hide Matching, LastWithKey, Matches;
    var first := FirstMatching(engine, rules, directory);
    var last := LastMatching(engine, rules, directory, publicKey);
    if first != -1 {
      assert FirstHasKey(engine, rules, directory, publicKey) <==> rules[first].publicKey == publicKey;
    }
    if last != -1 {
      assert MatchesKeyAt(engine, rules, directory, publicKey, last);
      if Named(rules, directory) {
        MatchingHavePattern(engine, rules, directory, last);
      }
    } else if first != -1 {
      assert !MatchesKeyAt(engine, rules, directory, publicKey, first);
    }
  }

  ghost predicate FirstHasKey(engine: Engine, rules: seq<Rule>, directory: string, publicKey: string) {
    exists f :: IsFirst(engine, rules, directory, f) && rules[f].publicKey == publicKey
  }

  /** The documentation of the configuration promises that the first rule that matches is
      applied.  For every name and key: that one is chosen exactly if the request has no key,
      or no rule that matches has it, or the last one that does has no pattern or is the same
      rule. */
  lemma FirstApplied(engine: Engine, rules: seq<Rule>, directory: string, publicKey: string, first: int)
    requires IsFirst(engine, rules, directory, first)
    ensures Chosen(Matching(engine, rules, directory), publicKey) == rules[first] <==>
            || publicKey == "" || (forall j :: !MatchesKeyAt(engine, rules, directory, publicKey, j))
            || exists i :: IsLastWithKey(engine, rules, directory, publicKey, i)
                           && (rules[i].prefix == "" || rules[i] == rules[first])
  {
    hide Matching, LastWithKey, Matches;
    var f := FirstMatching(engine, rules, directory);
    assert f == first;
    var last := LastMatching(engine, rules, directory, publicKey);
    if last != -1 {
      assert MatchesKeyAt(engine, rules, directory, publicKey, last);
    }
  }

  /** It fails for two rules with one pattern and the keys of two requests: the second request
      gets the second rule. */
  lemma KeyDecides(engine: Engine)
    ensures var first, second := Rule("a*", "nacl", "k", true, true), Rule("a*", "nacl", "l", false, false);
      && IsFirst(engine, [first, second], "ab", 0)
      && Chosen(Matching(engine, [first, second], "ab"), "l") == second != first
  {
    var first, second := Rule("a*", "nacl", "k", true, true), Rule("a*", "nacl", "l", false, false);
    MatchesPrefix(engine, "a", "b");
    assert "a" + "*" == "a*" && "a" + "b" == "ab";
    assert MatchesAt(engine, [first, second], "ab", 0) && MatchesKeyAt(engine, [first, second], "ab", "l", 1);
    ChosenIs(engine, [first, second], "ab", "l", 1);
  }

  lemma {:induction false} GlobPrefix(prefix: string, rest: string)
    requires '*' !in prefix && '\n' !in rest
    ensures Glob(prefix + "*", prefix + rest)
  {
    if prefix == "" {
      GlobStar("" + "*", "" + rest);
      assert ("" + rest)[|rest|..] == "" && Glob("", "");
      assert ("" + "*")[1..] == "" && ("" + rest)[..|rest|] == rest;
    } else {
      GlobPrefix(prefix[1..], rest);
      assert (prefix + "*")[1..] == prefix[1..] + "*" && (prefix + rest)[1..] == prefix[1..] + rest;
    }
  }

  /** A star at the end matches every continuation on one line. */
  lemma MatchesPrefix(engine: Engine, prefix: string, rest: string)
    requires '*' !in prefix && '\n' !in rest
    ensures Matches(engine, prefix + "*", prefix + rest)
  {
    GlobPrefix(prefix, rest);
    assert (prefix + "*")[|prefix|] == '*';
    MatchesMeaning(engine, prefix + "*", prefix + rest);
  }

  /** The choice's own comment promises the first rule that matches and has the request's key.
      That one is chosen exactly if the last such rule in the configuration is the same rule
      again, or the same place. */
  lemma FirstPromised(engine: Engine, rules: seq<Rule>, directory: string, publicKey: string, first: int)
    requires publicKey != "" && Named(rules, directory)
    requires IsFirstWithKey(engine, rules, directory, publicKey, first)
    ensures Chosen(Matching(engine, rules, directory), publicKey) == rules[first] <==>
            exists i :: IsLastWithKey(engine, rules, directory, publicKey, i) && rules[i] == rules[first]
  {
    hide Matching, LastWithKey, Matches, Chosen;
    var last := LastMatching(engine, rules, directory, publicKey);
    assert MatchesKeyAt(engine, rules, directory, publicKey, first);
    MatchingHavePattern(engine, rules, directory, last);
    ChosenIs(engine, rules, directory, publicKey, last);
  }

  /** The promise fails for two rules with one key and one pattern: the second decides. */
  lemma LastDecides(engine: Engine)
    ensures var first, last := Rule("a*", "nacl", "k", true, true), Rule("a*", "ecdsa", "k", false, false);
      IsFirstWithKey(engine, [first, last], "ab", "k", 0) && Chosen(Matching(engine, [first, last], "ab"), "k") != first
  {
    var first, last := Rule("a*", "nacl", "k", true, true), Rule("a*", "ecdsa", "k", false, false);
    MatchesPrefix(engine, "a", "b");
    assert "a" + "*" == "a*" && "a" + "b" == "ab";
    assert MatchesKeyAt(engine, [first, last], "ab", "k", 1);
    FirstPromised(engine, [first, last], "ab", "k", 0);
  }

  // ----- The signature -----

  const NACL := "nacl"
  const ECDSA := "ecdsa"
  const TESTNET3 := "testnet3"
  const MAINNET := "mainnet"

  /** What a signature scheme says of algorithm, key, message and signature; it may also
      panic, which ends the request. */
  datatype Check = Good | Bad | Panic

  type Verifier = (string, string, string, string) -> Check

  datatype Verdict = Granted | Refused | Crashed

  predicate Complete(info: Rule) {
    info.prefix != "" && info.algorithm != "" && info.publicKey != ""
  }

  function OfCheck(check: Check): Verdict {
    match check
    case Good => Granted
    case Bad => Refused
    case Panic => Crashed
  }

  function VerifySignature(
      info: Rule, publicKey: string, message: string, algorithm: string, signature: string, verify: Verifier): Verdict
  {
    if !Complete(info) then Granted
    else if info.algorithm == NACL then
      if info.algorithm != algorithm || info.publicKey != publicKey then Refused
      else OfCheck(verify(NACL, publicKey, message, signature))
    else if info.algorithm == ECDSA || info.algorithm == TESTNET3 || info.algorithm == MAINNET then
      if info.publicKey != publicKey then Refused
      else OfCheck(verify(info.algorithm, publicKey, message, signature))
    else Refused
  }

  datatype ListArgs = ListArgs(name: string, limit: int,
                               publicKey: string, algorithm: string, signature: string, timestamp: int)

  datatype EntryArgs = EntryArgs(name: string, entry: string, mode: string,
                                 publicKey: string, algorithm: string, signature: string, timestamp: int)

  const DAY: int := 24 * 60 * MINUTE

  predicate TimeInRange(start: int, end: int, check: int) {
    start < check < end
  }

  function VerifyList(args: ListArgs, info: Rule, now: int, verify: Verifier): Verdict {
    if !Complete(info) then Granted
    else if args.publicKey != info.publicKey then Refused
    else if !TimeInRange(now - DAY, now + DAY, args.timestamp) then Refused
    else
      var message := Text.ListText(args.name, args.timestamp);
      VerifySignature(info, args.publicKey, message, args.algorithm, args.signature, verify)
  }

  function VerifyEntry(args: EntryArgs, info: Rule, now: int, verify: Verifier): Verdict {
    if !Complete(info) then Granted
    else if args.publicKey != info.publicKey then Refused
    else if !TimeInRange(now - DAY, now + DAY, args.timestamp) then Refused
    else
      var message := Text.EntryText(args.name, args.timestamp, args.entry);
      VerifySignature(info, args.publicKey, message, args.algorithm, args.signature, verify)
  }

  /** The rule asks for a signature at all: it is complete. */
  predicate Asks(info: Rule) {
    info.prefix != "" && info.algorithm != "" && info.publicKey != ""
  }

  /** What a rule demands of a request before its verifier is asked: the rule's key, a timestamp
      strictly within a day, a known algorithm, for NaCl named by the request too. */
  predicate Presentable(info: Rule, publicKey: string, algorithm: string, timestamp: int, now: int) {
    && publicKey == info.publicKey
    && -86_400 * SECOND < timestamp - now < 86_400 * SECOND
    && (|| info.algorithm == "nacl" || info.algorithm == "ecdsa"
        || info.algorithm == "testnet3" || info.algorithm == "mainnet")
    && (info.algorithm == "nacl" ==> algorithm == "nacl")
  }

  /** What both layers of checks together say: a rule that asks for nothing grants; a request
      that is not presentable is refused; for any other it is the verifier's word on the signed
      text that counts, and its panic ends the request. */
  predicate IsVerdict(
      verdict: Verdict, info: Rule, publicKey: string, text: string, algorithm: string, signature: string,
      timestamp: int, now: int, verify: Verifier)
  {
    && (verdict == Granted <==>
          Asks(info) ==> Presentable(info, publicKey, algorithm, timestamp, now)
                         && verify(info.algorithm, publicKey, text, signature) == Good)
    && (verdict == Crashed <==>
          Asks(info) && Presentable(info, publicKey, algorithm, timestamp, now)
          && verify(info.algorithm, publicKey, text, signature) == Panic)
  }

  /** For every rule, request, clock and verifier. */
  lemma GateIsExact(info: Rule, list: ListArgs, entry: EntryArgs, now: int, verify: Verifier)
    ensures IsVerdict(VerifyList(list, info, now, verify), info, list.publicKey,
                      Text.ListText(list.name, list.timestamp),
                      list.algorithm, list.signature, list.timestamp, now, verify)
    ensures IsVerdict(VerifyEntry(entry, info, now, verify), info, entry.publicKey,
                      Text.EntryText(entry.name, entry.timestamp, entry.entry),
                      entry.algorithm, entry.signature, entry.timestamp, now, verify)
  {
  }

  // ----- What a configuration lets through unsigned -----

  /** What the rule that is chosen for a List, or for an Add or Remove, says to it. */
  function ListVerdict(engine: Engine, rules: seq<Rule>, args: ListArgs, now: int, verify: Verifier): Verdict {
    var info := Chosen(Matching(engine, rules, args.name), args.publicKey);
    if info.confidential then VerifyList(args, info, now, verify) else Granted
  }

  function EntryVerdict(engine: Engine, rules: seq<Rule>, args: EntryArgs, now: int, verify: Verifier): Verdict {
    var info := Chosen(Matching(engine, rules, args.name), args.publicKey);
    if info.readOnly then VerifyEntry(args, info, now, verify) else Granted
  }

  predicate ListPasses(engine: Engine, rules: seq<Rule>, args: ListArgs, now: int, verify: Verifier) {
    ListVerdict(engine, rules, args, now, verify) == Granted
  }

  predicate EntryPasses(engine: Engine, rules: seq<Rule>, args: EntryArgs, now: int, verify: Verifier) {
    EntryVerdict(engine, rules, args, now, verify) == Granted
  }

  /** The rule asks nothing of a List, or of an Add or Remove. */
  predicate Lax(rule: Rule, listing: bool) {
    !Complete(rule) || !if listing then rule.confidential else rule.readOnly
  }

  /** The rule can be chosen: it is the first that matches, or the last that matches and has
      its key. */
  predicate CanBeChosen(engine: Engine, rules: seq<Rule>, directory: string, i: int) {
    || IsFirst(engine, rules, directory, i)
    || (0 <= i < |rules| && rules[i].publicKey != ""
        && IsLastWithKey(engine, rules, directory, rules[i].publicKey, i))
  }

  /** No rule matches, or some lax one can be chosen. */
  ghost predicate Unguarded(engine: Engine, rules: seq<Rule>, directory: string, listing: bool) {
    || (forall i :: !MatchesAt(engine, rules, directory, i))
    || exists i :: CanBeChosen(engine, rules, directory, i) && Lax(rules[i], listing)
  }

  ghost predicate AcceptsNothing(verify: Verifier) {
    forall algorithm, key, message, signature :: verify(algorithm, key, message, signature) != Good
  }

  lemma AskedIsRefused(info: Rule, list: ListArgs, entry: EntryArgs, now: int, verify: Verifier)
    requires AcceptsNothing(verify)
    ensures VerifyList(list, info, now, verify) == Granted <==> !Complete(info)
    ensures VerifyEntry(entry, info, now, verify) == Granted <==> !Complete(info)
  {
    GateIsExact(info, list, entry, now, verify);
  }

  lemma ChosenCanBe(engine: Engine, rules: seq<Rule>, directory: string, publicKey: string) returns (i: int)
    requires Named(rules, directory)
    ensures if i == -1 then
              Chosen(Matching(engine, rules, directory), publicKey) == NO_RULE
              && forall j :: !MatchesAt(engine, rules, directory, j)
            else
              CanBeChosen(engine, rules, directory, i)
              && Chosen(Matching(engine, rules, directory), publicKey) == rules[i]
  {
    hide Matches, Matching, LastWithKey;
    i := FirstMatching(engine, rules, directory);
    var last := LastMatching(engine, rules, directory, publicKey);
    if publicKey != "" && last != -1 {
      assert MatchesKeyAt(engine, rules, directory, publicKey, last);
      MatchingHavePattern(engine, rules, directory, last);
      i := last;
    }
  }

  lemma CanBeChosenIs(engine: Engine, rules: seq<Rule>, directory: string, i: int) returns (publicKey: string)
    requires Named(rules, directory) && CanBeChosen(engine, rules, directory, i)
    ensures Chosen(Matching(engine, rules, directory), publicKey) == rules[i]
  {
    hide Matches, Matching, LastWithKey;
    var first := FirstMatching(engine, rules, directory);
    if IsFirst(engine, rules, directory, i) {
      publicKey := "";
      assert first == i;
    } else {
      publicKey := rules[i].publicKey;
      MatchingHavePattern(engine, rules, directory, i);
      ChosenIs(engine, rules, directory, publicKey, i);
    }
  }

  /** A List without acceptable signature is let through for some request exactly if the
      configuration leaves the directory unguarded: not if merely some rule demands one. */
  lemma ListsWithoutSignature(engine: Engine, rules: seq<Rule>, directory: string, now: int, verify: Verifier)
    requires Named(rules, directory) && AcceptsNothing(verify)
    ensures (exists args: ListArgs :: args.name == directory && ListPasses(engine, rules, args, now, verify))
            <==> Unguarded(engine, rules, directory, true)
  {
    hide Matches, Matching, LastWithKey, Chosen, VerifyList, VerifyEntry;
    var none := EntryArgs("", "", "", "", "", "", 0);
    if args: ListArgs :| args.name == directory && ListPasses(engine, rules, args, now, verify) {
      var i := ChosenCanBe(engine, rules, directory, args.publicKey);
      AskedIsRefused(Chosen(Matching(engine, rules, directory), args.publicKey), args, none, now, verify);
    }
    if Unguarded(engine, rules, directory, true) {
      var publicKey := "";
      if i :| CanBeChosen(engine, rules, directory, i) && Lax(rules[i], true) {
        publicKey := CanBeChosenIs(engine, rules, directory, i);
      } else {
        var i := ChosenCanBe(engine, rules, directory, publicKey);
      }
      var args := ListArgs(directory, 0, publicKey, "", "", now);
      AskedIsRefused(Chosen(Matching(engine, rules, directory), publicKey), args, none, now, verify);
      assert ListPasses(engine, rules, args, now, verify);
    }
  }

  /** The same for Adds and Removes. */
  lemma WritesWithoutSignature(engine: Engine, rules: seq<Rule>, directory: string, now: int, verify: Verifier)
    requires Named(rules, directory) && AcceptsNothing(verify)
    ensures (exists args: EntryArgs :: args.name == directory && EntryPasses(engine, rules, args, now, verify))
            <==> Unguarded(engine, rules, directory, false)
  {
    hide Matches, Matching, LastWithKey, Chosen, VerifyList, VerifyEntry;
    var none := ListArgs("", 0, "", "", "", 0);
    if args: EntryArgs :| args.name == directory && EntryPasses(engine, rules, args, now, verify) {
      var i := ChosenCanBe(engine, rules, directory, args.publicKey);
      AskedIsRefused(Chosen(Matching(engine, rules, directory), args.publicKey), none, args, now, verify);
    }
    if Unguarded(engine, rules, directory, false) {
      var publicKey := "";
      if i :| CanBeChosen(engine, rules, directory, i) && Lax(rules[i], false) {
        publicKey := CanBeChosenIs(engine, rules, directory, i);
      } else {
        var i := ChosenCanBe(engine, rules, directory, publicKey);
      }
      var args := EntryArgs(directory, "", "", publicKey, "", "", now);
      AskedIsRefused(Chosen(Matching(engine, rules, directory), publicKey), none, args, now, verify);
      assert EntryPasses(engine, rules, args, now, verify);
    }
  }

  /** A lax rule for everything in front of one that wants signed reads: with a key that no rule
      has, the second is bypassed. */
  lemma LaxRuleBypasses(engine: Engine, now: int, verify: Verifier)
    ensures var rules := [Rule("*", "", "", false, false), Rule("secret*", "nacl", "k", true, true)];
      ListPasses(engine, rules, ListArgs("secret", 0, "", "", "", now), now, verify)
      && Matches(engine, rules[1].prefix, "secret") && Complete(rules[1]) && rules[1].confidential
  {
    hide Matching, Matches, Chosen, LastWithKey, VerifyList;
    var rules := [Rule("*", "", "", false, false), Rule("secret*", "nacl", "k", true, true)];
    MatchesPrefix(engine, "", "secret");
    MatchesPrefix(engine, "secret", "");
    assert "" + "*" == "*" && "" + "secret" == "secret" && "secret" + "*" == "secret*" && "secret" + "" == "secret";
    assert MatchesAt(engine, rules, "secret", 0);
    FirstApplied(engine, rules, "secret", "", 0);
  }
}
