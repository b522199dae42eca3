/**
 * The crawler's exclusion policy: a line-oriented reading of `robots.txt` and a
 * lookup that denies a URL when its string form contains a rule. This is the
 * program's own simplification, not the matching of RFC 9309 section 2.2.2.
 */
module Robots {
  import opened Text
  import opened Wrappers

  /** The parsed policy: user-agent token to its disallow rules, in file order. */
  datatype Robots = Robots(rules: map<string, seq<string>>)

  const Wildcard := "*"

  /** The group `IsAllowed` consults: the exact agent's if present (even empty), else the wildcard's. */
  function Group(r: Robots, userAgent: string): Option<seq<string>> {
    if userAgent in r.rules then Some(r.rules[userAgent])
    else if Wildcard in r.rules then Some(r.rules[Wildcard])
    else None
  }

  /** Some rule of `group` occurs as a substring of `url`. */
  predicate Denies(group: seq<string>, url: string) {
    exists i :: 0 <= i < |group| && Contains(url, group[i])
  }

  /** The policy's answer for one agent and the string form of one URL. */
  predicate Allows(r: Robots, userAgent: string, url: string) {
    match Group(r, userAgent)
    case None => true
    case Some(g) => !Denies(g, url)
  }

  /** `IsAllowed`: the group lookup, then a scan of its rules that stops at the first match. */
  method IsAllowed(r: Robots, userAgent: string, url: string) returns (allowed: bool)
    ensures allowed == Allows(r, userAgent, url)
  {
    var rules: seq<string>;
    if userAgent in r.rules {
      rules := r.rules[userAgent];
    } else if Wildcard in r.rules {
      rules := r.rules[Wildcard];
    } else {
      return true;
    }
    var i := 0;
    while i < |rules|
      invariant 0 <= i <= |rules|
      invariant forall k :: 0 <= k < i ==> !Contains(url, rules[k])
    {
      if Contains(url, rules[i]) {
        return false;
      }
      i := i + 1;
    }
    return true;
  }

  /** An exact group is used even when it is empty, and the wildcard group is then ignored. */
  lemma ExactGroupWins(r: Robots, userAgent: string, url: string)
    requires userAgent in r.rules
    ensures Allows(r, userAgent, url) <==> !Denies(r.rules[userAgent], url)
    ensures r.rules[userAgent] == [] ==> Allows(r, userAgent, url)
  {
  }

  /** Without an exact group the wildcard group decides; without either, everything is allowed. */
  lemma WildcardFallback(r: Robots, userAgent: string, url: string)
    requires userAgent !in r.rules
    ensures Wildcard in r.rules ==> (Allows(r, userAgent, url) <==> !Denies(r.rules[Wildcard], url))
    ensures Wildcard !in r.rules ==> Allows(r, userAgent, url)
  {
  }

  /** A URL is denied exactly when some rule of the chosen group occurs somewhere in its string form. */
  lemma DeniedIffRuleOccurs(r: Robots, userAgent: string, url: string)
    ensures !Allows(r, userAgent, url) <==>
      Group(r, userAgent).Some? &&
      exists i, j :: 0 <= i < |Group(r, userAgent).value| && OccursAt(url, Group(r, userAgent).value[i], j)
  {
    match Group(r, userAgent)
    case None =>
    case Some(g) =>
      forall i | 0 <= i < |g| {
        ContainsIffOccurs(url, g[i]);
      }
  }

  /** The empty policy, which a 404 for `robots.txt` yields, allows every URL for every agent. */
  lemma EmptyPolicyAllowsAll(userAgent: string, url: string)
    ensures Allows(Robots(map[]), userAgent, url)
  {
  }

  const AgentPrefix := "User-agent:"
  const AgentValuePrefix := "User-agent: "
  const DisallowMarker := "Disallow:"
  const DisallowValuePrefix := "Disallow: "

  predicate IsComment(line: string) {
    HasPrefix(line, "#")
  }

  predicate IsAgentLine(line: string) {
    !IsComment(line) && HasPrefix(line, AgentPrefix)
  }

  predicate IsDisallowLine(line: string) {
    !IsComment(line) && !IsAgentLine(line) && Contains(line, DisallowMarker)
  }

  /** The agent a `User-agent:` line names: its trimmed text without the exact prefix "User-agent: ". */
  function AgentName(line: string): string {
    TrimPrefix(TrimSpace(line), AgentValuePrefix)
  }

  /** The rules a `Disallow:` line contributes: the fields of its trimmed text without "Disallow: ". */
  function DisallowFields(line: string): seq<string> {
    Fields(TrimPrefix(TrimSpace(line), DisallowValuePrefix))
  }

  /** The agent in force after `lines`: the one the last `User-agent:` line names, or "" before any. */
  function AgentAfter(lines: seq<string>): string
    decreases |lines|
  {
    if lines == [] then ""
    else if IsAgentLine(lines[|lines| - 1]) then AgentName(lines[|lines| - 1])
    else AgentAfter(lines[..|lines| - 1])
  }

  /** The rules of `agent`: the fields of every `Disallow:` line read while `agent` was in force, in file order. */
  function RulesFor(lines: seq<string>, agent: string): seq<string>
    decreases |lines|
  {
    if lines == [] then []
    else
      var init, line := lines[..|lines| - 1], lines[|lines| - 1];
      RulesFor(init, agent) + (if IsDisallowLine(line) && AgentAfter(init) == agent then DisallowFields(line) else [])
  }

  /** Reading one more line: how the agent in force and every rule list change. */
  lemma ReadLine(lines: seq<string>, i: int)
    requires 0 <= i < |lines|
    ensures AgentAfter(lines[..i + 1]) ==
      if IsAgentLine(lines[i]) then AgentName(lines[i]) else AgentAfter(lines[..i])
    ensures forall a :: RulesFor(lines[..i + 1], a) == RulesFor(lines[..i], a) +
                          (if IsDisallowLine(lines[i]) && AgentAfter(lines[..i]) == a then DisallowFields(lines[i]) else [])
  {
    assert lines[..i + 1][..i] == lines[..i];
  }

  /** The list `rules` holds for `agent`; Go's lookup of an absent key yields the nil slice. */
  function Lookup(rules: map<string, seq<string>>, agent: string): seq<string> {
    if agent in rules then rules[agent] else []
  }

  /** `r` has the agents of `rules`, and `agent` once `done` is not empty. */
  ghost predicate KeysAppended(r: map<string, seq<string>>, rules: map<string, seq<string>>, agent: string,
                               done: seq<string>) {
    forall a :: a in r <==> a in rules || (a == agent && done != [])
  }

  /** `r` is `rules` with `done` appended to `agent`'s list. */
  ghost predicate ListsAppended(r: map<string, seq<string>>, rules: map<string, seq<string>>, agent: string,
                                done: seq<string>) {
    forall a :: Lookup(r, a) == Lookup(rules, a) + (if a == agent then done else [])
  }

  /** Appending one more field keeps `KeysAppended`. */
  lemma KeysAppendedStep(r: map<string, seq<string>>, rules: map<string, seq<string>>, agent: string,
                         done: seq<string>, f: string)
    requires KeysAppended(r, rules, agent, done)
    ensures KeysAppended(r[agent := Lookup(r, agent) + [f]], rules, agent, done + [f])
  {
    var r' := r[agent := Lookup(r, agent) + [f]];
    forall a ensures a in r' <==> a in rules || (a == agent && done + [f] != []) {
      if a != agent {
        assert (a in r') == (a in r);
      }
    }
  }

  /** Appending one more field keeps `ListsAppended`. */
  lemma ListsAppendedStep(r: map<string, seq<string>>, rules: map<string, seq<string>>, agent: string,
                          done: seq<string>, f: string)
    requires ListsAppended(r, rules, agent, done)
    ensures ListsAppended(r[agent := Lookup(r, agent) + [f]], rules, agent, done + [f])
  {
    var r' := r[agent := Lookup(r, agent) + [f]];
    forall a ensures Lookup(r', a) == Lookup(rules, a) + (if a == agent then done + [f] else []) {
      if a == agent {
        calc {
          Lookup(r', a);
          Lookup(r, a) + [f];
          (Lookup(rules, a) + done) + [f];
          Lookup(rules, a) + (done + [f]);
        }
      } else {
        assert Lookup(r', a) == Lookup(r, a);
        assert Lookup(r, a) == Lookup(rules, a) + [];
      }
    }
  }

  /** The inner loop of the parser: append each field, in order, to `agent`'s list, creating it if absent. */
  method AppendFields(rules: map<string, seq<string>>, agent: string, fields: seq<string>)
    returns (r: map<string, seq<string>>)
    ensures forall a :: a in r <==> a in rules || (a == agent && fields != [])
    ensures forall a :: Lookup(r, a) == Lookup(rules, a) + (if a == agent then fields else [])
  {
    r := rules;
    var j := 0;
    assert fields[..0] == [];
    while j < |fields|
      invariant 0 <= j <= |fields|
      invariant KeysAppended(r, rules, agent, fields[..j])
      invariant ListsAppended(r, rules, agent, fields[..j])
    {
      assert fields[..j + 1] == fields[..j] + [fields[j]];
      KeysAppendedStep(r, rules, agent, fields[..j], fields[j]);
      ListsAppendedStep(r, rules, agent, fields[..j], fields[j]);
      r := r[agent := Lookup(r, agent) + [fields[j]]];
      j := j + 1;
    }
    assert fields[..j] == fields;
  }

  /** The rules one line contributes to the agent in force: a `Disallow:` line's fields, otherwise none. */
  function LineRules(line: string): seq<string> {
    if IsDisallowLine(line) then DisallowFields(line) else []
  }

  /** One pass of the parsing loop: the line's effect on the agent in force and on the rule lists. */
  method ReadOne(rules: map<string, seq<string>>, userAgent: string, line: string)
    returns (rules': map<string, seq<string>>, userAgent': string)
    ensures userAgent' == if IsAgentLine(line) then AgentName(line) else userAgent
    ensures KeysAppended(rules', rules, userAgent, LineRules(line))
    ensures ListsAppended(rules', rules, userAgent, LineRules(line))
  {
    rules', userAgent' := rules, userAgent;
    if HasPrefix(line, "#") {
      assert LineRules(line) == [];
      NothingAppended(rules, userAgent);
    } else if HasPrefix(line, AgentPrefix) {
      var trimmed := TrimSpace(line);
      userAgent' := TrimPrefix(trimmed, AgentValuePrefix);
      assert LineRules(line) == [];
      NothingAppended(rules, userAgent);
    } else if Contains(line, DisallowMarker) {
      var trimmed := TrimSpace(line);
      var value := TrimPrefix(trimmed, DisallowValuePrefix);
      var fields := Fields(value);
      assert LineRules(line) == fields;
      rules' := AppendFields(rules, userAgent, fields);
    } else {
      assert LineRules(line) == [];
      NothingAppended(rules, userAgent);
    }
  }

  /** Appending no rules leaves the map as it is. */
  lemma NothingAppended(rules: map<string, seq<string>>, agent: string)
    ensures KeysAppended(rules, rules, agent, [])
    ensures ListsAppended(rules, rules, agent, [])
  {
    forall a ensures Lookup(rules, a) == Lookup(rules, a) + (if a == agent then [] else []) {
      assert Lookup(rules, a) + [] == Lookup(rules, a);
    }
  }

  /** `rules` has a group for exactly the agents that `lines` gives a rule. */
  ghost predicate KeysParsed(rules: map<string, seq<string>>, lines: seq<string>) {
    forall a :: a in rules <==> RulesFor(lines, a) != []
  }

  /** `rules` holds every agent's rules from `lines`. */
  ghost predicate ListsParsed(rules: map<string, seq<string>>, lines: seq<string>) {
    forall a :: Lookup(rules, a) == RulesFor(lines, a)
  }

  /** Reading line `i` the way `ReadOne` does keeps `KeysParsed`. */
  lemma KeysParsedStep(lines: seq<string>, i: int, rules: map<string, seq<string>>, rules': map<string, seq<string>>)
    requires 0 <= i < |lines|
    requires KeysParsed(rules, lines[..i])
    requires KeysAppended(rules', rules, AgentAfter(lines[..i]), LineRules(lines[i]))
    ensures KeysParsed(rules', lines[..i + 1])
  {
    ReadLine(lines, i);
  }

  /** Reading line `i` the way `ReadOne` does keeps `ListsParsed`. */
  lemma ListsParsedStep(lines: seq<string>, i: int, rules: map<string, seq<string>>, rules': map<string, seq<string>>)
    requires 0 <= i < |lines|
    requires ListsParsed(rules, lines[..i])
    requires ListsAppended(rules', rules, AgentAfter(lines[..i]), LineRules(lines[i]))
    ensures ListsParsed(rules', lines[..i + 1])
  {
    ReadLine(lines, i);
  }

  /**
   * The parsing loop of `FetchRobots`, over the lines the scanner yields. An
   * agent gets a group only once a field is appended for it.
   */
  method ParseRules(lines: seq<string>) returns (rules: map<string, seq<string>>)
    ensures forall a :: a in rules <==> RulesFor(lines, a) != []
    ensures forall a :: Lookup(rules, a) == RulesFor(lines, a)
  {
    rules := map[];
    var userAgent := "";
    var i := 0;
    while i < |lines|
      invariant 0 <= i <= |lines|
      invariant userAgent == AgentAfter(lines[..i])
      invariant KeysParsed(rules, lines[..i])
      invariant ListsParsed(rules, lines[..i])
    {
      ReadLine(lines, i);
      var rules' := rules;
      rules', userAgent := ReadOne(rules, userAgent, lines[i]);
      KeysParsedStep(lines, i, rules, rules');
      ListsParsedStep(lines, i, rules, rules');
      rules := rules';
      i := i + 1;
    }
    assert lines[..i] == lines;
  }

  /** Lines beginning with '#' change neither the agent in force nor any rule list. */
  lemma CommentIgnored(lines: seq<string>, comment: string, agent: string)
    requires IsComment(comment)
    ensures AgentAfter(lines + [comment]) == AgentAfter(lines)
    ensures RulesFor(lines + [comment], agent) == RulesFor(lines, agent)
  {
    assert (lines + [comment])[..|lines|] == lines;
  }

  /** A `User-agent:` line switches the agent in force and creates no group by itself. */
  lemma AgentLineOpensNoGroup(lines: seq<string>, line: string, agent: string)
    requires IsAgentLine(line)
    ensures AgentAfter(lines + [line]) == AgentName(line)
    ensures RulesFor(lines + [line], agent) == RulesFor(lines, agent)
  {
    assert (lines + [line])[..|lines|] == lines;
  }

  /** A `Disallow:` line appends its fields to the current agent's rules and to no other. */
  lemma DisallowLineAppends(lines: seq<string>, line: string, agent: string)
    requires IsDisallowLine(line)
    ensures AgentAfter(lines + [line]) == AgentAfter(lines)
    ensures RulesFor(lines + [line], agent) ==
      RulesFor(lines, agent) + (if agent == AgentAfter(lines) then DisallowFields(line) else [])
  {
    assert (lines + [line])[..|lines|] == lines;
  }

  /** Until the first `User-agent:` line, rules go to the group keyed by the empty string. */
  lemma {:induction false} NoAgentLineMeansEmptyAgent(lines: seq<string>)
    requires forall k :: 0 <= k < |lines| ==> !IsAgentLine(lines[k])
    ensures AgentAfter(lines) == ""
    decreases |lines|
  {
    if lines != [] {
      NoAgentLineMeansEmptyAgent(lines[..|lines| - 1]);
    }
  }

  /** Every parsed rule is a non-empty run of non-space characters, so it never matches trivially. */
  lemma {:induction false} RulesAreFields(lines: seq<string>, agent: string)
    ensures forall k :: 0 <= k < |RulesFor(lines, agent)| ==>
      RulesFor(lines, agent)[k] != [] && NoSpace(RulesFor(lines, agent)[k])
    decreases |lines|
  {
    if lines != [] {
      RulesAreFields(lines[..|lines| - 1], agent);
    }
  }

  /** The result of the GET of `/robots.txt`, with the body already split into lines. */
  datatype RobotsResponse =
    | Unreachable(err: string)
    | Answered(status: int, lines: seq<string>, readErr: Option<string>, closeErr: Option<string>)

  /** What `FetchRobots` returns: a policy, an error, or the `(nil, nil)` of an unexpected status. */
  datatype Fetched = Policy(robots: Robots) | FetchFailed(err: string) | NoPolicy

  const StatusOK := 200
  const StatusNotFound := 404

  /** `FetchRobots` after the GET: classify the response, then parse a 200 body. */
  method FetchRobots(resp: RobotsResponse) returns (f: Fetched)
    ensures resp.Unreachable? ==> f == FetchFailed(resp.err)
    ensures resp.Answered? && resp.closeErr.Some? ==> f == FetchFailed(resp.closeErr.value)
    ensures resp.Answered? && resp.closeErr.None? && resp.status == StatusNotFound ==> f == Policy(Robots(map[]))
    ensures resp.Answered? && resp.closeErr.None? && resp.status != StatusNotFound && resp.readErr.Some? ==>
      f == FetchFailed(resp.readErr.value)
    ensures (resp.Answered? && resp.closeErr.None? && resp.readErr.None? &&
             resp.status != StatusNotFound && resp.status != StatusOK) ==> f == NoPolicy
    ensures resp.Answered? && resp.closeErr.None? && resp.readErr.None? && resp.status == StatusOK ==>
      f.Policy? &&
      (forall a :: a in f.robots.rules <==> RulesFor(resp.lines, a) != []) &&
      (forall a :: Lookup(f.robots.rules, a) == RulesFor(resp.lines, a))
  {
    match resp
    case Unreachable(err) =>
      return FetchFailed(err);
    case Answered(status, lines, readErr, closeErr) =>
      if closeErr.Some? {
        return FetchFailed(closeErr.value);
      }
      if status == StatusNotFound {
        return Policy(Robots(map[]));
      }
      if readErr.Some? {
        return FetchFailed(readErr.value);
      }
      if status != StatusOK {
        return NoPolicy;
      }
      var rules := ParseRules(lines);
      return Policy(Robots(rules));
  }
}
