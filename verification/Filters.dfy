/** Subscription rules: how they are merged into the filter sent to the relay, how
    an arriving event is matched against them, and why the first never hides an
    event that the second would accept (config.rs and filter.rs). */
module Filters {
  import opened Text

  type Uuid = nat
  type Kind = nat

  /** Parsing and printing of channel ids, left open: `parse` also accepts forms
      that `show` never prints (upper case, no hyphens, a urn prefix). */
  datatype Codec = Codec(parse: string -> Option<Uuid>, show: Uuid -> string)

  ghost predicate Lawful(c: Codec) {
    forall u: Uuid :: c.parse(c.show(u)) == Some(u)
  }

  datatype ChannelScope = All(word: string) | List(ids: seq<string>) {
    /** `ChannelScope::matches`: compares text. */
    predicate Matches(c: Codec, ch: Uuid) {
      match this
      case All(word) => word == "all"
      case List(ids) => c.show(ch) in ids
    }

    /** `rule_applies_to_channel`: compares parsed ids. */
    predicate AppliesTo(c: Codec, ch: Uuid) {
      match this
      case All(word) => word == "all"
      case List(ids) => exists id | id in ids :: c.parse(id) == Some(ch)
    }
  }

  datatype Rule = Rule(name: string, channels: ChannelScope, kinds: seq<Kind>, requireMention: bool,
                       filter: Option<string>, promptTag: Option<string>)

  datatype Event = Event(content: string, author: string, kind: Kind, createdAt: nat, tags: seq<seq<string>>)

  /** A `p` tag naming the agent. */
  predicate Mentions(e: Event, agent: string) {
    exists t | t in e.tags :: |t| >= 2 && t[0] == "p" && t[1] == agent
  }

  predicate KindAllowed(kinds: seq<Kind>, k: Kind) {
    kinds == [] || k in kinds
  }

  // ------------------------------------------------- the filter sent to the relay

  const STREAM_MESSAGE: Kind := 9
  const WORKFLOW_APPROVAL_REQUESTED: Kind := 46010
  const STREAM_REMINDER: Kind := 40007

  datatype ChannelFilter = ChannelFilter(kinds: Option<seq<Kind>>, requireMention: bool)

  /** What a relay delivers for the filter: an absent `kinds` is a wildcard. */
  predicate Delivers(f: ChannelFilter, e: Event, agent: string) {
    (f.kinds.Some? ==> e.kind in f.kinds.value) && (f.requireMention ==> Mentions(e, agent))
  }

  datatype SubscribeMode = MentionsOnly | Everything | Rules

  datatype Config = Config(mode: SubscribeMode, channelsOverride: Option<seq<string>>,
                           kindsOverride: Option<seq<Kind>>, noMentionFilter: bool)

  /** Kinds of `more` appended in order, those already present left out. */
  function AppendNew(ks: seq<Kind>, more: seq<Kind>): (r: seq<Kind>)
    ensures forall k :: k in r <==> k in ks || k in more
  {
    if more == [] then ks
    else
      var r := AppendNew(ks, more[..|more| - 1]);
      var k := more[|more| - 1];
      assert more == more[..|more| - 1] + [k];
      if k in r then r else r + [k]
  }

  function MergedKinds(c: Codec, rules: seq<Rule>, ch: Uuid): Option<seq<Kind>> {
    if rules == [] then Some([])
    else
      var before := MergedKinds(c, rules[..|rules| - 1], ch);
      var rule := rules[|rules| - 1];
      if !rule.channels.AppliesTo(c, ch) || before.None? then before
      else if rule.kinds == [] then None
      else Some(AppendNew(before.value, rule.kinds))
  }

  predicate SomeRuleApplies(c: Codec, rules: seq<Rule>, ch: Uuid) {
    exists rule | rule in rules :: rule.channels.AppliesTo(c, ch)
  }

  predicate EveryRuleAsksMention(c: Codec, rules: seq<Rule>, ch: Uuid) {
    forall rule | rule in rules && rule.channels.AppliesTo(c, ch) :: rule.requireMention
  }

  function Merged(c: Codec, rules: seq<Rule>, ch: Uuid): Option<ChannelFilter> {
    if SomeRuleApplies(c, rules, ch)
    then Some(ChannelFilter(MergedKinds(c, rules, ch), EveryRuleAsksMention(c, rules, ch)))
    else None
  }

  function DefaultKinds(config: Config): seq<Kind> {
    if config.kindsOverride.Some? then config.kindsOverride.value
    else [STREAM_MESSAGE, WORKFLOW_APPROVAL_REQUESTED, STREAM_REMINDER]
  }

  predicate Allowed(c: Codec, config: Config, ch: Uuid) {
    config.channelsOverride.Some? ==>
      exists s | s in config.channelsOverride.value :: c.parse(s) == Some(ch)
  }

  /** The filter a channel is meant to have, whenever it is discovered. */
  function Wanted(c: Codec, config: Config, rules: seq<Rule>, ch: Uuid): Option<ChannelFilter> {
    match config.mode
    case Rules => Merged(c, rules, ch)
    case MentionsOnly =>
      if Allowed(c, config, ch) then Some(ChannelFilter(Some(DefaultKinds(config)), !config.noMentionFilter)) else None
    case Everything =>
      if Allowed(c, config, ch) then Some(ChannelFilter(config.kindsOverride, false)) else None
  }

  method AppliesToChannel(c: Codec, rule: Rule, ch: Uuid) returns (b: bool)
    ensures b == rule.channels.AppliesTo(c, ch)
  {
    match rule.channels
    case All(word) => b := word == "all";
    case List(ids) => b := AnyParsesTo(c, ids, ch);
  }

  method AnyParsesTo(c: Codec, ids: seq<string>, ch: Uuid) returns (b: bool)
    ensures b <==> exists id | id in ids :: c.parse(id) == Some(ch)
  {
    for i := 0 to |ids|
      invariant forall j | 0 <= j < i :: c.parse(ids[j]) != Some(ch)
    {
      if c.parse(ids[i]) == Some(ch) {
        return true;
      }
    }
    b := false;
  }

  method PushNewKinds(ks: seq<Kind>, more: seq<Kind>) returns (r: seq<Kind>)
    ensures r == AppendNew(ks, more)
  {
    r := ks;
    assert more[..0] == [];
    for i := 0 to |more|
      invariant r == AppendNew(ks, more[..i])
    {
      assert more[..i + 1][..i] == more[..i];
      if more[i] !in r {
        r := r + [more[i]];
      }
    }
    assert more[..|more|] == more;
  }

  /** The merge loop both resolvers run in config mode. */
  method MergeRules(c: Codec, rules: seq<Rule>, ch: Uuid) returns (r: Option<ChannelFilter>)
    ensures r == Merged(c, rules, ch)
  {
    var kinds: Option<seq<Kind>>, requireMention, hasRule := Some([]), true, false;
    for i := 0 to |rules|
      invariant kinds == MergedKinds(c, rules[..i], ch)
      invariant hasRule == SomeRuleApplies(c, rules[..i], ch)
      invariant requireMention == EveryRuleAsksMention(c, rules[..i], ch)
    {
      var rule := rules[i];
      assert rules[..i + 1] == rules[..i] + [rule];
      assert rules[..i + 1][..i] == rules[..i];
      var applies := AppliesToChannel(c, rule, ch);
      if !applies {
        continue;
      }
      hasRule := true;
      if rule.kinds == [] {
        kinds := None;
      } else if kinds.Some? {
        var ks := PushNewKinds(kinds.value, rule.kinds);
        kinds := Some(ks);
      }
      if !rule.requireMention {
        requireMention := false;
      }
    }
    assert rules[..|rules|] == rules;
    r := if hasRule then Some(ChannelFilter(kinds, requireMention)) else None;
  }

  method TargetChannels(c: Codec, config: Config, discovered: seq<Uuid>) returns (targets: seq<Uuid>)
    ensures forall ch :: ch in targets <==> ch in discovered && Allowed(c, config, ch)
  {
    if config.channelsOverride.None? {
      return discovered;
    }
    var overrides := config.channelsOverride.value;
    targets := [];
    for i := 0 to |overrides|
      invariant forall ch :: ch in targets <==>
          ch in discovered && exists j | 0 <= j < i :: c.parse(overrides[j]) == Some(ch)
    {
      var id := c.parse(overrides[i]);
      if id.Some? && id.value in discovered {
        targets := targets + [id.value];
      }
    }
  }

  /** `resolve_channel_filters`: the start-up resolver. */
  method ResolveChannelFilters(c: Codec, config: Config, discovered: seq<Uuid>, rules: seq<Rule>)
    returns (result: map<Uuid, ChannelFilter>)
    ensures forall ch :: ch in result <==> ch in discovered && Wanted(c, config, rules, ch).Some?
    ensures forall ch | ch in result :: Wanted(c, config, rules, ch) == Some(result[ch])
  {
    result := map[];
    if config.mode == Rules {
      for i := 0 to |discovered|
        invariant forall ch :: ch in result <==> ch in discovered[..i] && Merged(c, rules, ch).Some?
        invariant forall ch | ch in result :: Merged(c, rules, ch) == Some(result[ch])
      {
        var ch := discovered[i];
        assert discovered[..i + 1] == discovered[..i] + [ch];
        var f := MergeRules(c, rules, ch);
        if f.Some? {
          result := result[ch := f.value];
        }
      }
      assert discovered[..|discovered|] == discovered;
    } else {
      var targets := TargetChannels(c, config, discovered);
      var f := if config.mode == Everything then ChannelFilter(config.kindsOverride, false)
      else ChannelFilter(Some(DefaultKinds(config)), !config.noMentionFilter);
      for i := 0 to |targets|
        invariant forall ch :: ch in result <==> ch in targets[..i]
        invariant forall ch | ch in result :: result[ch] == f
      {
        assert targets[..i + 1] == targets[..i] + [targets[i]];
        result := result[targets[i] := f];
      }
      assert targets[..|targets|] == targets;
    }
  }

  /** `resolve_dynamic_channel_filter`: the resolver for a channel that appears later. */
  method ResolveDynamicChannelFilter(c: Codec, config: Config, ch: Uuid, rules: seq<Rule>)
    returns (r: Option<ChannelFilter>)
    ensures r == Wanted(c, config, rules, ch)
  {
    if config.mode != Rules && config.channelsOverride.Some? {
      var allowed := AnyParsesTo(c, config.channelsOverride.value, ch);
      if !allowed {
        return None;
      }
    }
    match config.mode
    case MentionsOnly => r := Some(ChannelFilter(Some(DefaultKinds(config)), !config.noMentionFilter));
    case Everything => r := Some(ChannelFilter(config.kindsOverride, false));
    case Rules => r := MergeRules(c, rules, ch);
  }

  /** Channels that turn up one at a time get what they would have got at start-up. */
  method ResolveOneByOne(c: Codec, config: Config, discovered: seq<Uuid>, rules: seq<Rule>)
    returns (atStart: map<Uuid, ChannelFilter>, later: map<Uuid, ChannelFilter>)
    ensures atStart == later
  {
    atStart := ResolveChannelFilters(c, config, discovered, rules);
    later := map[];
    for i := 0 to |discovered|
      invariant forall ch :: ch in later <==> ch in discovered[..i] && Wanted(c, config, rules, ch).Some?
      invariant forall ch | ch in later :: Wanted(c, config, rules, ch) == Some(later[ch])
    {
      assert discovered[..i + 1] == discovered[..i] + [discovered[i]];
      var f := ResolveDynamicChannelFilter(c, config, discovered[i], rules);
      if f.Some? {
        later := later[discovered[i] := f.value];
      }
    }
    assert discovered[..|discovered|] == discovered;
  }

  /** What the resolved filter of a channel lets through in the two modes without rules. The
      channel must be listed if there is a list. Every kind, or the kinds configured, pass in
      the one mode; in the other the kinds configured or the three kinds meant for agents,
      and only with a mention unless that is switched off. */
  lemma {:induction false} ModeAdmits(c: Codec, config: Config, rules: seq<Rule>, ch: Uuid, e: Event, agent: string)
    requires !config.mode.Rules?
    ensures var f := Wanted(c, config, rules, ch);
            f.Some? && Delivers(f.value, e, agent) <==>
            && (config.channelsOverride.None?
                || exists i | 0 <= i < |config.channelsOverride.value| ::
                     c.parse(config.channelsOverride.value[i]) == Some(ch))
            && (if config.kindsOverride.Some? then e.kind in config.kindsOverride.value
                else config.mode.Everything? || e.kind == 9 || e.kind == 46010 || e.kind == 40007)
            && (config.mode.Everything? || config.noMentionFilter || Mentions(e, agent))
  {
    if config.channelsOverride.Some? {
      var ids := config.channelsOverride.value;
      if s :| s in ids && c.parse(s) == Some(ch) {
        var i :| 0 <= i < |ids| && ids[i] == s;
      }
      if i :| 0 <= i < |ids| && c.parse(ids[i]) == Some(ch) {
        assert ids[i] in ids;
      }
    }
  }

  predicate SomeRuleTakesKind(c: Codec, rules: seq<Rule>, ch: Uuid, k: Kind) {
    exists rule | rule in rules :: rule.channels.AppliesTo(c, ch) && KindAllowed(rule.kinds, k)
  }

  lemma {:induction false} MergedKindsAdmit(c: Codec, rules: seq<Rule>, ch: Uuid, k: Kind)
    ensures var m := MergedKinds(c, rules, ch);
            (m.None? || k in m.value) <==> SomeRuleTakesKind(c, rules, ch, k)
  {
    if rules != [] {
      var before, rule := rules[..|rules| - 1], rules[|rules| - 1];
      assert rules == before + [rule];
      MergedKindsAdmit(c, before, ch, k);
    }
  }

  /** The merged filter lets an event through exactly when some applicable rule
      takes its kind and some applicable rule, perhaps another, takes its mention. */
  lemma {:induction false} MergedFilterAdmits(c: Codec, rules: seq<Rule>, ch: Uuid, e: Event, agent: string)
    requires Merged(c, rules, ch).Some?
    ensures Delivers(Merged(c, rules, ch).value, e, agent) <==>
            && SomeRuleTakesKind(c, rules, ch, e.kind)
            && exists rule | rule in rules ::
                 rule.channels.AppliesTo(c, ch) && (rule.requireMention ==> Mentions(e, agent))
  {
    MergedKindsAdmit(c, rules, ch, e.kind);
  }

  // --------------------------------------------------------- matching an event

  const MAX_CONSECUTIVE_TIMEOUTS := 5

  datatype FilterContext = FilterContext(content: string, author: string, kind: Kind, channelId: string, timestamp: nat)

  datatype Verdict = True | False | Timeout | Error

  datatype Matched = Matched(index: nat, promptTag: string)

  /** One call of `match_event`; `eval` is what the expression evaluator answers
      for the rule at an index during this call. */
  datatype Call = Call(event: Event, channel: Uuid, agent: string, eval: (nat, string, FilterContext) -> Verdict)

  function ContextOf(c: Codec, e: Event, ch: Uuid): FilterContext {
    FilterContext(e.content, e.author, e.kind, c.show(ch), e.createdAt)
  }

  predicate Eligible(c: Codec, rule: Rule, call: Call) {
    && rule.channels.Matches(c, call.channel)
    && KindAllowed(rule.kinds, call.event.kind)
    && (rule.requireMention ==> Mentions(call.event, call.agent))
  }

  /** Does the evaluator get asked about rule `i`, once the scan reaches it? */
  predicate Asked(c: Codec, rule: Rule, timeouts: nat, call: Call) {
    Eligible(c, rule, call) && rule.filter.Some? && timeouts < MAX_CONSECUTIVE_TIMEOUTS
  }

  function Answer(c: Codec, i: nat, rule: Rule, call: Call): Verdict
    requires rule.filter.Some?
  {
    call.eval(i, rule.filter.value, ContextOf(c, call.event, call.channel))
  }

  datatype Outcome = Wins | Passes | Closes

  function OutcomeOf(c: Codec, i: nat, rule: Rule, timeouts: nat, call: Call): Outcome {
    if !Eligible(c, rule, call) then Passes
    else if rule.filter.None? then Wins
    else if !Asked(c, rule, timeouts, call) then Closes
    else match Answer(c, i, rule, call)
      case True => Wins
      case False => Passes
      case _ => Closes
  }

  function CounterAfter(c: Codec, i: nat, rule: Rule, timeouts: nat, call: Call): nat {
    if !Asked(c, rule, timeouts, call) then timeouts
    else match Answer(c, i, rule, call)
      case True => 0
      case False => 0
      case Timeout => timeouts + 1
      case Error => timeouts
  }

  /** Where the scan ends: the first rule at or after `i` that does not pass. */
  function StopAt(c: Codec, rules: seq<Rule>, counters: seq<nat>, call: Call, i: nat): (stop: nat)
    requires |counters| == |rules| && i <= |rules|
    ensures i <= stop <= |rules|
    ensures forall j | i <= j < stop :: OutcomeOf(c, j, rules[j], counters[j], call) == Passes
    ensures stop < |rules| ==> OutcomeOf(c, stop, rules[stop], counters[stop], call) != Passes
    decreases |rules| - i
  {
    if i == |rules| || OutcomeOf(c, i, rules[i], counters[i], call) != Passes then i
    else StopAt(c, rules, counters, call, i + 1)
  }

  function Tag(rule: Rule): string {
    if rule.promptTag.Some? then rule.promptTag.value else rule.name
  }

  function MatchResult(c: Codec, rules: seq<Rule>, counters: seq<nat>, call: Call): Option<Matched>
    requires |counters| == |rules|
  {
    var stop := StopAt(c, rules, counters, call, 0);
    if stop < |rules| && OutcomeOf(c, stop, rules[stop], counters[stop], call) == Wins
    then Some(Matched(stop, Tag(rules[stop]))) else None
  }

  function CountersAfter(c: Codec, rules: seq<Rule>, counters: seq<nat>, call: Call): (after: seq<nat>)
    requires |counters| == |rules|
    ensures |after| == |rules|
  {
    var stop := StopAt(c, rules, counters, call, 0);
    seq(|rules|, j requires 0 <= j < |rules| =>
      if j <= stop then CounterAfter(c, j, rules[j], counters[j], call) else counters[j])
  }

  method IsEligible(c: Codec, rule: Rule, call: Call) returns (b: bool)
    ensures b == Eligible(c, rule, call)
  {
    if !rule.channels.Matches(c, call.channel) {
      return false;
    }
    if rule.kinds != [] && call.event.kind !in rule.kinds {
      return false;
    }
    if rule.requireMention {
      var mentioned, tags := false, call.event.tags;
      for i := 0 to |tags|
        invariant mentioned <==> exists j | 0 <= j < i :: |tags[j]| >= 2 && tags[j][0] == "p" && tags[j][1] == call.agent
      {
        if |tags[i]| >= 2 && tags[i][0] == "p" && tags[i][1] == call.agent {
          mentioned := true;
        }
      }
      return mentioned;
    }
    b := true;
  }

  /** `match_event`: the counters in `timeouts` are shared by all calls and updated in place. */
  method MatchEvent(c: Codec, rules: seq<Rule>, timeouts: array<nat>, call: Call) returns (r: Option<Matched>)
    requires timeouts.Length == |rules|
    modifies timeouts
    ensures r == MatchResult(c, rules, old(timeouts[..]), call)
    ensures timeouts[..] == CountersAfter(c, rules, old(timeouts[..]), call)
  {
    ghost var was := timeouts[..];
    ghost var stop := StopAt(c, rules, was, call, 0);
    for i := 0 to |rules|
      invariant StopAt(c, rules, was, call, i) == stop
      invariant forall j | 0 <= j < i :: timeouts[j] == CounterAfter(c, j, rules[j], was[j], call)
      invariant forall j | i <= j < |rules| :: timeouts[j] == was[j]
    {
      var rule := rules[i];
      var eligible := IsEligible(c, rule, call);
      if !eligible {
        continue;
      }
      if rule.filter.Some? {
        if timeouts[i] >= MAX_CONSECUTIVE_TIMEOUTS {
          return None;
        }
        match call.eval(i, rule.filter.value, ContextOf(c, call.event, call.channel)) {
          case True => timeouts[i] := 0;
          case False =>
            timeouts[i] := 0;
            continue;
          case Timeout =>
            timeouts[i] := timeouts[i] + 1;
            return None;
          case Error => return None;
        }
      }
      return Some(Matched(i, Tag(rule)));
    }
    r := None;
  }

  /** An event is accepted under rule `k` exactly when `k` accepts it on every
      count and every earlier rule rejects it cleanly, none by failing. */
  lemma {:induction false} AcceptedExactlyWhen(c: Codec, rules: seq<Rule>, counters: seq<nat>, call: Call, k: nat)
    requires |counters| == |rules| && k < |rules|
    ensures MatchResult(c, rules, counters, call) == Some(Matched(k, Tag(rules[k]))) <==>
            && Eligible(c, rules[k], call)
            && (rules[k].filter.Some? ==> counters[k] < MAX_CONSECUTIVE_TIMEOUTS && Answer(c, k, rules[k], call) == True)
            && forall j | 0 <= j < k && Eligible(c, rules[j], call) ::
                 rules[j].filter.Some? && counters[j] < MAX_CONSECUTIVE_TIMEOUTS && Answer(c, j, rules[j], call) == False
  {
    var stop := StopAt(c, rules, counters, call, 0);
    if stop < k {
      assert OutcomeOf(c, stop, rules[stop], counters[stop], call) != Passes;
    } else if k < stop {
      assert OutcomeOf(c, k, rules[k], counters[k], call) == Passes;
    }
    forall j | 0 <= j < k && stop == k && Eligible(c, rules[j], call)
      ensures rules[j].filter.Some? && counters[j] < MAX_CONSECUTIVE_TIMEOUTS && Answer(c, j, rules[j], call) == False
    {
      assert OutcomeOf(c, j, rules[j], counters[j], call) == Passes;
    }
  }

  /** Failing never widens: when evaluations go wrong, or rules get disabled, that
      went right before, the event gets the same match or none at all. */
  lemma {:induction false} FailureNeverWidens(c: Codec, rules: seq<Rule>, counters: seq<nat>, worn: seq<nat>,
                                              call: Call, broken: Call)
    requires |counters| == |worn| == |rules|
    requires forall j | 0 <= j < |rules| :: counters[j] <= worn[j]
    requires broken == call.(eval := broken.eval)
    requires forall i, s, ctx ::
               broken.eval(i, s, ctx) == call.eval(i, s, ctx) || broken.eval(i, s, ctx) in {Timeout, Error}
    ensures var r := MatchResult(c, rules, worn, broken);
            r == None || r == MatchResult(c, rules, counters, call)
  {
    var a, b := StopAt(c, rules, counters, call, 0), StopAt(c, rules, worn, broken, 0);
    var m := if a < b then a else b;
    if m < |rules| {
      assert Eligible(c, rules[m], call) == Eligible(c, rules[m], broken);
      assert OutcomeOf(c, m, rules[m], worn[m], broken) in {Closes, OutcomeOf(c, m, rules[m], counters[m], call)};
    }
  }

  // ---------------------------------------------------- nothing accepted is lost

  lemma {:induction false} MatchesImpliesApplies(c: Codec, s: ChannelScope, ch: Uuid)
    requires Lawful(c) && s.Matches(c, ch)
    ensures s.AppliesTo(c, ch)
  {
    if s.List? {
      assert c.parse(c.show(ch)) == Some(ch);
    }
  }

  /** Any event some rule accepts in a channel is delivered by that channel's merged filter. */
  lemma {:induction false} NothingAcceptedIsLost(c: Codec, rules: seq<Rule>, counters: seq<nat>, call: Call)
    requires Lawful(c) && |counters| == |rules|
    requires MatchResult(c, rules, counters, call).Some?
    ensures var f := Merged(c, rules, call.channel);
            f.Some? && Delivers(f.value, call.event, call.agent)
  {
    var rule := rules[StopAt(c, rules, counters, call, 0)];
    MatchesImpliesApplies(c, rule.channels, call.channel);
    assert SomeRuleApplies(c, rules, call.channel);
    MergedFilterAdmits(c, rules, call.channel, call.event, call.agent);
  }

  /** The subscribing side and the matching side agree on a scope exactly when every
      listed id that parses is also listed in its printed form. */
  lemma {:induction false} ScopesAgreeExactlyWhen(c: Codec, s: ChannelScope)
    requires Lawful(c)
    ensures (forall ch :: s.Matches(c, ch) <==> s.AppliesTo(c, ch)) <==>
            (s.List? ==> forall id | id in s.ids && c.parse(id).Some? :: c.show(c.parse(id).value) in s.ids)
  {
    forall ch | s.Matches(c, ch) ensures s.AppliesTo(c, ch) {
      MatchesImpliesApplies(c, s, ch);
    }
    if s.List? && (forall ch :: s.Matches(c, ch) <==> s.AppliesTo(c, ch)) {
      forall id | id in s.ids && c.parse(id).Some? ensures c.show(c.parse(id).value) in s.ids {
        assert s.AppliesTo(c, c.parse(id).value);
      }
    }
  }

  /** A rule naming its one channel in a form that parses but is never printed
      subscribes to the channel, and then no event there matches. */
  lemma {:induction false} NonCanonicalIdIsDeaf(c: Codec, rule: Rule, id: string, counters: seq<nat>, call: Call)
    requires Lawful(c) && rule.channels == List([id]) && |counters| == 1
    requires c.parse(id) == Some(call.channel) && c.show(call.channel) != id
    ensures Merged(c, [rule], call.channel).Some?
    ensures MatchResult(c, [rule], counters, call) == None
  {
    assert id in rule.channels.ids;
    assert rule.channels.AppliesTo(c, call.channel);
    assert rule in [rule];
    assert !Eligible(c, [rule][0], call);
  }

  // ------------------------------------------------------------- runs of calls

  function CountersAfterAll(c: Codec, rules: seq<Rule>, counters: seq<nat>, calls: seq<Call>): (after: seq<nat>)
    requires |counters| == |rules|
    ensures |after| == |rules|
  {
    if calls == [] then counters
    else CountersAfter(c, rules, CountersAfterAll(c, rules, counters, calls[..|calls| - 1]), calls[|calls| - 1])
  }

  /** The answers the evaluator gave about rule `i`, in order, from fresh counters. */
  function Answers(c: Codec, rules: seq<Rule>, calls: seq<Call>, i: nat): seq<Verdict>
    requires i < |rules|
  {
    if calls == [] then []
    else
      var before := calls[..|calls| - 1];
      var call := calls[|calls| - 1];
      var counters := CountersAfterAll(c, rules, Zeros(|rules|), before);
      Answers(c, rules, before, i) +
      if i <= StopAt(c, rules, counters, call, 0) && Asked(c, rules[i], counters[i], call)
      then [Answer(c, i, rules[i], call)] else []
  }

  function Zeros(n: nat): (z: seq<nat>)
    ensures |z| == n && forall i | 0 <= i < n :: z[i] == 0
  {
    seq(n, _ => 0)
  }

  /** Timeouts since the last answer that was true or false; errors neither count nor reset. */
  function Streak(answers: seq<Verdict>): nat {
    if answers == [] then 0
    else match answers[|answers| - 1]
      case True => 0
      case False => 0
      case Timeout => Streak(answers[..|answers| - 1]) + 1
      case Error => Streak(answers[..|answers| - 1])
  }

  /** In every run the counter of a rule is its current streak of timeouts, and never passes five. */
  lemma {:induction false} CounterIsStreak(c: Codec, rules: seq<Rule>, calls: seq<Call>, i: nat)
    requires i < |rules|
    ensures CountersAfterAll(c, rules, Zeros(|rules|), calls)[i]
         == Streak(Answers(c, rules, calls, i)) <= MAX_CONSECUTIVE_TIMEOUTS
  {
    if calls != [] {
      var before, call := calls[..|calls| - 1], calls[|calls| - 1];
      CounterIsStreak(c, rules, before, i);
      var counters := CountersAfterAll(c, rules, Zeros(|rules|), before);
      var was := Answers(c, rules, before, i);
      if i <= StopAt(c, rules, counters, call, 0) && Asked(c, rules[i], counters[i], call) {
        assert (was + [Answer(c, i, rules[i], call)])[..|was|] == was;
      } else {
        assert was + [] == was;
      }
    }
  }

  /** A rule that has timed out five times in a row is never evaluated again, and
      from then on every event that gets as far as it is refused. */
  lemma {:induction false} DisabledForGood(c: Codec, rules: seq<Rule>, counters: seq<nat>, calls: seq<Call>, i: nat)
    requires i < |rules| == |counters|
    requires rules[i].filter.Some? && counters[i] >= MAX_CONSECUTIVE_TIMEOUTS
    ensures CountersAfterAll(c, rules, counters, calls)[i] == counters[i]
    ensures forall call | Eligible(c, rules[i], call) ::
              var r := MatchResult(c, rules, CountersAfterAll(c, rules, counters, calls), call);
              r.Some? ==> r.value.index < i
  {
    if calls != [] {
      DisabledForGood(c, rules, counters, calls[..|calls| - 1], i);
    }
    var now := CountersAfterAll(c, rules, counters, calls);
    forall call | Eligible(c, rules[i], call)
      ensures var r := MatchResult(c, rules, now, call); r.Some? ==> r.value.index < i
    {
      assert OutcomeOf(c, i, rules[i], now[i], call) == Closes;
      assert StopAt(c, rules, now, call, 0) <= i;
    }
  }
}
