/**
 * The moderation rules a website can put in a user's JWT "rules" claim
 * (pkg/jwt/rules.go): string-valued rules, predicates that treat
 * `novideo` as implying `nobroadcast`, and the four-key dictionary sent to
 * the front end.
 */
module JwtRules {

  type Rule = string

  const NoVideoRule: Rule := "novideo"         // may not use video features at all
  const NoBroadcastRule: Rule := "nobroadcast" // may not share their webcam
  const NoImageRule: Rule := "noimage"         // may not upload or see images
  const RedCamRule: Rule := "redcam"           // camera is forced to be marked explicit

  predicate IsNoVideoRule(r: Rule) { r == NoVideoRule }
  predicate IsNoImageRule(r: Rule) { r == NoImageRule }
  /** `novideo` is a superset of `nobroadcast`: both imply no broadcasting. */
  predicate IsNoBroadcastRule(r: Rule) { r == NoVideoRule || r == NoBroadcastRule }
  predicate IsRedCamRule(r: Rule) { r == RedCamRule }

  /** The four predicates, one per key of the dictionary. */
  datatype Key = NoVideoKey | NoImageKey | NoBroadcastKey | RedCamKey

  function KeyName(k: Key): string {
    match k
    case NoVideoKey => "IsNoVideoRule"
    case NoImageKey => "IsNoImageRule"
    case NoBroadcastKey => "IsNoBroadcastRule"
    case RedCamKey => "IsRedCamRule"
  }

  const KeyNames: set<string> := {"IsNoVideoRule", "IsNoImageRule", "IsNoBroadcastRule", "IsRedCamRule"}

  predicate Satisfies(r: Rule, k: Key) {
    match k
    case NoVideoKey => IsNoVideoRule(r)
    case NoImageKey => IsNoImageRule(r)
    case NoBroadcastKey => IsNoBroadcastRule(r)
    case RedCamKey => IsRedCamRule(r)
  }

  /** Some rule in the list satisfies the predicate behind key `k`. */
  predicate Enabled(rules: seq<Rule>, k: Key) {
    exists r :: r in rules && Satisfies(r, k)
  }

  /** The dictionary names the four keys and no other. */
  lemma KeyNamesExact(s: string)
    ensures s in KeyNames <==> exists k: Key :: KeyName(k) == s
  {
    if s in KeyNames {
      if s == "IsNoVideoRule" { assert KeyName(NoVideoKey) == s; }
      else if s == "IsNoImageRule" { assert KeyName(NoImageKey) == s; }
      else if s == "IsNoBroadcastRule" { assert KeyName(NoBroadcastKey) == s; }
      else { assert KeyName(RedCamKey) == s; }
    }
  }

  /**
   * Rules.ToDict: every key starts false and a rule that satisfies a key's
   * predicate sets it to true.
   */
  method ToDict(rules: seq<Rule>) returns (d: map<string, bool>)
    ensures d.Keys == KeyNames
    ensures forall k: Key :: d[KeyName(k)] == Enabled(rules, k)
  {
    d := map["IsNoVideoRule" := false, "IsNoImageRule" := false,
             "IsNoBroadcastRule" := false, "IsRedCamRule" := false];
    var i := 0;
    while i < |rules|
      invariant 0 <= i <= |rules|
      invariant d.Keys == KeyNames
      invariant forall k: Key :: d[KeyName(k)] == Enabled(rules[..i], k)
    {
      var rule := rules[i];
      assert rules[..i + 1] == rules[..i] + [rule];
      forall k: Key ensures Enabled(rules[..i + 1], k) == (Enabled(rules[..i], k) || Satisfies(rule, k)) {
        EnabledSnoc(rules[..i], rule, k);
      }
      if IsNoVideoRule(rule) {
        d := d["IsNoVideoRule" := true];
      }
      if IsNoImageRule(rule) {
        d := d["IsNoImageRule" := true];
      }
      if IsNoBroadcastRule(rule) {
        d := d["IsNoBroadcastRule" := true];
      }
      if IsRedCamRule(rule) {
        d := d["IsRedCamRule" := true];
      }
      i := i + 1;
    }
    assert rules[..i] == rules;
  }

  lemma EnabledSnoc(rules: seq<Rule>, rule: Rule, k: Key)
    ensures Enabled(rules + [rule], k) == (Enabled(rules, k) || Satisfies(rule, k))
  {
    if Enabled(rules + [rule], k) {
      var r :| r in rules + [rule] && Satisfies(r, k);
      assert r in rules || r == rule;
    }
    if Enabled(rules, k) {
      var r :| r in rules && Satisfies(r, k);
      assert r in rules + [rule];
    }
    assert rule in rules + [rule];
  }

  /** `novideo` alone switches on both the no-video and the no-broadcast keys, and nothing else. */
  lemma NoVideoImpliesNoBroadcast(k: Key)
    ensures Enabled([NoVideoRule], k) <==> k == NoVideoKey || k == NoBroadcastKey
  {
    if k == NoVideoKey || k == NoBroadcastKey {
      assert NoVideoRule in [NoVideoRule] && Satisfies(NoVideoRule, k);
    }
  }

  /**
   * The dictionary depends only on which rules occur: reordering or
   * repeating rules does not change it.
   */
  lemma {:induction false} EnabledIgnoresOrderAndDuplicates(a: seq<Rule>, b: seq<Rule>, k: Key)
    requires forall r :: r in a <==> r in b
    ensures Enabled(a, k) == Enabled(b, k)
  {
    if Enabled(a, k) {
      var r :| r in a && Satisfies(r, k);
      assert r in b;
    }
    if Enabled(b, k) {
      var r :| r in b && Satisfies(r, k);
      assert r in a;
    }
  }

  /** Unknown rule strings switch nothing on. */
  lemma UnknownRulesIgnored(rules: seq<Rule>, extra: Rule, k: Key)
    requires extra !in {NoVideoRule, NoBroadcastRule, NoImageRule, RedCamRule}
    ensures Enabled(rules + [extra], k) == Enabled(rules, k)
  {
    if Enabled(rules + [extra], k) {
      var r :| r in rules + [extra] && Satisfies(r, k);
      assert r in rules;
    }
    if Enabled(rules, k) {
      var r :| r in rules && Satisfies(r, k);
      assert r in rules + [extra];
    }
  }
}
