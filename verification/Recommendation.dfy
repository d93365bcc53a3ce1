/** Cited replacement recommendations for urgent assessments (backend/app/engines/recommendation_engine.py). */
module Recommendation {
  import opened Wrappers
  import Enums
  import opened AlgorithmNames

  datatype Family = MlKem | MlDsa | SlhDsa | Aes

  /** NIST security categories. */
  datatype Category = One | Three | Five

  datatype Rule = Rule(
    ruleId: string,
    currentAlgorithms: seq<string>,
    purposes: set<Enums.Purpose>,
    recommended: Family,
    requiresKeySizeBits: Option<int>,
    requiresStateless: Option<bool>)

  datatype Sizes = Sizes(
    publicKey: Option<int>, privateKey: Option<int>, ciphertext: Option<int>, signature: Option<int>, symmetricKey: Option<int>)
  {
    predicate IsEmpty() {
      publicKey.None? && privateKey.None? && ciphertext.None? && signature.None? && symmetricKey.None?
    }

    predicate ArePositive() {
      && (publicKey.Some? ==> publicKey.value > 0)
      && (privateKey.Some? ==> privateKey.value > 0)
      && (ciphertext.Some? ==> ciphertext.value > 0)
      && (signature.Some? ==> signature.value > 0)
      && (symmetricKey.Some? ==> symmetricKey.value > 0)
    }
  }

  datatype ParameterSet = ParameterSet(
    family: Family, name: string, category: Option<Category>, sizes: Sizes, sourceId: string)

  datatype Source = Source(sourceId: string, url: string)

  datatype Profile = Profile(
    version: string, sources: seq<Source>, policyCategory: Category, parameterSets: seq<ParameterSet>, rules: seq<Rule>)

  datatype Requirements = Requirements(category: Option<Category>, hybrid: bool, stateless: bool)

  /** What the engine reads; `keySizeBits` is the result of `key_size_bits` on the artefact. */
  datatype Context = Context(
    algorithm: Option<string>,
    name: string,
    purposes: seq<Enums.Purpose>,
    keySizeBits: Option<int>,
    status: Enums.AssessmentStatus,
    priority: Enums.Priority,
    requirements: Requirements)

  datatype Reason = NoAlgorithm | NoRule | SeveralFamilies | NoUniqueParameterSet | HybridWithoutKem

  datatype Facts = Facts(sourceId: string, url: string, sizes: Sizes)

  /** `citedRule` is the rule named in the rationale of an automatic choice. */
  datatype Advice =
    | Manual(reason: Reason, version: string)
    | Automatic(
        family: Family, parameterSet: string, category: Option<Category>, partner: Option<string>, isHybrid: bool,
        facts: Facts, citedRule: string, version: string)

  datatype Error = SourceNotFound | ValidationError

  const CLASSICAL_PARTNER := "X25519"

  // ----- matching -----

  predicate SharesPurpose(purposes: seq<Enums.Purpose>, wanted: set<Enums.Purpose>) {
    exists p :: p in purposes && p in wanted
  }

  predicate RuleMatches(r: Rule, c: Context, algorithm: string) {
    && algorithm in r.currentAlgorithms
    && SharesPurpose(c.purposes, r.purposes)
    && (r.requiresKeySizeBits.Some? ==> c.keySizeBits == r.requiresKeySizeBits)
    && (r.requiresStateless.Some? ==> c.requirements.stateless == r.requiresStateless.value)
  }

  function MatchingRules(rules: seq<Rule>, c: Context, algorithm: string): seq<Rule> {
    if rules == [] then []
    else (if RuleMatches(rules[0], c, algorithm) then [rules[0]] else []) + MatchingRules(rules[1..], c, algorithm)
  }

  function Choices(matching: seq<Rule>): set<Family> {
    set r | r in matching :: r.recommended
  }

  function Selects(e: ParameterSet, family: Family, category: Option<Category>): bool {
    e.family == family && e.category == category
  }

  function Entries(sets: seq<ParameterSet>, family: Family, category: Option<Category>): seq<ParameterSet> {
    if sets == [] then []
    else (if Selects(sets[0], family, category) then [sets[0]] else []) + Entries(sets[1..], family, category)
  }

  /** The one entry for a family and category; `None` if there is none or more than one. */
  function ParameterSetFor(p: Profile, family: Family, category: Option<Category>): Option<ParameterSet> {
    var entries := Entries(p.parameterSets, family, category);
    if |entries| == 1 then Some(entries[0]) else None
  }

  function FindSource(sources: seq<Source>, id: string): Result<Source, Error> {
    if sources == [] then Failure(SourceNotFound)
    else if sources[0].sourceId == id then Success(sources[0])
    else FindSource(sources[1..], id)
  }

  function NewFacts(sourceId: string, url: string, sizes: Sizes): Result<Facts, Error> {
    if sourceId != "" && url != "" && !sizes.IsEmpty() && sizes.ArePositive() then Success(Facts(sourceId, url, sizes))
    else Failure(ValidationError)
  }

  // ----- the engine -----

  predicate IsActionable(c: Context) {
    c.status == Enums.Scored && (c.priority == Enums.P0 || c.priority == Enums.P1)
  }

  /** `artefact.algorithm or artefact.name`, normalised. */
  function AlgorithmKey(c: Context): Option<string> {
    Normalise(Some(if c.algorithm.Some? && c.algorithm.value != "" then c.algorithm.value else c.name))
  }

  /** AES entries carry no category; for the others an explicit requirement overrides the policy. */
  function CategoryFor(family: Family, c: Context, p: Profile): Option<Category> {
    if family == Aes then None else Some(c.requirements.category.GetOr(p.policyCategory))
  }

  function Automate(family: Family, e: ParameterSet, citedRule: string, c: Context, p: Profile): Result<Advice, Error> {
    var source :- FindSource(p.sources, e.sourceId);
    var facts :- NewFacts(source.sourceId, source.url, e.sizes);
    var isHybrid := c.requirements.hybrid;
    Success(Automatic(
      family, e.name, CategoryFor(family, c, p), if isHybrid then Some(CLASSICAL_PARTNER) else None, isHybrid,
      facts, citedRule, p.version))
  }

  function Recommend(c: Context, p: Profile): Result<Option<Advice>, Error> {
    if !IsActionable(c) then Success(None)
    else
      var key := AlgorithmKey(c);
      if key.None? then Success(Some(Manual(NoAlgorithm, p.version)))
      else
        var matching := MatchingRules(p.rules, c, key.value);
        if matching == [] then Success(Some(Manual(NoRule, p.version)))
        else if |Choices(matching)| != 1 then Success(Some(Manual(SeveralFamilies, p.version)))
        else
          var family := matching[0].recommended;
          var entry := ParameterSetFor(p, family, CategoryFor(family, c, p));
          if entry.None? then Success(Some(Manual(NoUniqueParameterSet, p.version)))
          else if c.requirements.hybrid && family != MlKem then Success(Some(Manual(HybridWithoutKem, p.version)))
          else
            var advice :- Automate(family, entry.value, matching[0].ruleId, c, p);
            Success(Some(advice))
  }

  // ----- which advice -----

  /** Every parameter set carries a positive size and cites a known source with a link. */
  ghost predicate IsValidProfile(p: Profile) {
    && (forall e :: e in p.parameterSets ==>
          !e.sizes.IsEmpty() && e.sizes.ArePositive() && exists s :: s in p.sources && s.sourceId == e.sourceId)
    && (forall s :: s in p.sources ==> s.sourceId != "" && s.url != "")
  }

  lemma {:induction false} MatchingAreTheMatches(rules: seq<Rule>, c: Context, algorithm: string)
    ensures forall r :: r in MatchingRules(rules, c, algorithm) <==> r in rules && RuleMatches(r, c, algorithm)
  {
    if rules != [] {
      MatchingAreTheMatches(rules[1..], c, algorithm);
      assert rules == [rules[0]] + rules[1..];
    }
  }

  lemma {:induction false} EntriesAreSelected(sets: seq<ParameterSet>, family: Family, category: Option<Category>)
    ensures forall e :: multiset(Entries(sets, family, category))[e] ==
                        if Selects(e, family, category) then multiset(sets)[e] else 0
  {
    if sets != [] {
      EntriesAreSelected(sets[1..], family, category);
      assert sets == [sets[0]] + sets[1..];
    }
  }

  lemma {:induction false} SourceIsFound(sources: seq<Source>, id: string)
    ensures FindSource(sources, id).Success? <==> exists s :: s in sources && s.sourceId == id
    ensures FindSource(sources, id).Success? ==>
              FindSource(sources, id).value in sources && FindSource(sources, id).value.sourceId == id
  {
    if sources != [] {
      SourceIsFound(sources[1..], id);
      assert sources == [sources[0]] + sources[1..];
    }
  }

  /** `f` is the family every matching rule recommends, and some rule matches. */
  ghost predicate IsTheChoice(f: Family, c: Context, p: Profile, algorithm: string) {
    && (exists r :: r in p.rules && RuleMatches(r, c, algorithm))
    && (forall r :: r in p.rules && RuleMatches(r, c, algorithm) ==> r.recommended == f)
  }

  lemma SingleChoice(matching: seq<Rule>)
    requires matching != []
    ensures |Choices(matching)| == 1 <==> forall r :: r in matching ==> r.recommended == matching[0].recommended
  {
    var f := matching[0].recommended;
    assert matching[0] in matching && f in Choices(matching);
    if forall r :: r in matching ==> r.recommended == f {
      assert Choices(matching) == {f};
    } else {
      var r :| r in matching && r.recommended != f;
      assert {f, r.recommended} <= Choices(matching);
      CountTwo(Choices(matching), f, r.recommended);
    }
  }

  lemma CountTwo(s: set<Family>, a: Family, b: Family)
    requires a in s && b in s && a != b
    ensures |s| >= 2
  {
    assert s == (s - {a, b}) + {a, b};
    assert |{a, b}| == 2;
  }

  /** When, and only when, the advice is automatic: one agreed family, one cited entry, and no impossible hybrid. */
  ghost predicate IsAutomaticFor(f: Family, c: Context, p: Profile) {
    && IsActionable(c)
    && AlgorithmKey(c).Some?
    && IsTheChoice(f, c, p, AlgorithmKey(c).value)
    && ParameterSetFor(p, f, CategoryFor(f, c, p)).Some?
    && (c.requirements.hybrid ==> f == MlKem)
  }

  lemma EntryIsListed(p: Profile, family: Family, category: Option<Category>)
    requires ParameterSetFor(p, family, category).Some?
    ensures var e := ParameterSetFor(p, family, category).value;
            && e in p.parameterSets && Selects(e, family, category)
            && multiset(p.parameterSets)[e] == 1
            && (forall d :: d in p.parameterSets && Selects(d, family, category) ==> d == e)
  {
    var entries := Entries(p.parameterSets, family, category);
    EntriesAreSelected(p.parameterSets, family, category);
    var e := entries[0];
    assert entries == [e];
    assert multiset(entries)[e] == 1;
    forall d | d in p.parameterSets && Selects(d, family, category) ensures d == e {
      assert d in multiset(p.parameterSets);
      assert multiset(entries)[d] > 0;
    }
    assert e in multiset(p.parameterSets);
  }

  /** An automatic advice under a valid profile never trips a validator, and cites the entry it rests on. */
  lemma AutomateSucceeds(family: Family, e: ParameterSet, citedRule: string, c: Context, p: Profile)
    requires IsValidProfile(p) && e in p.parameterSets
    ensures var r := Automate(family, e, citedRule, c, p);
            && r.Success? && r.value.Automatic?
            && r.value.family == family && r.value.parameterSet == e.name && r.value.category == CategoryFor(family, c, p)
            && r.value.isHybrid == c.requirements.hybrid && (r.value.partner.Some? <==> r.value.isHybrid)
            && r.value.facts.sourceId == e.sourceId && r.value.facts.sizes == e.sizes
            && r.value.citedRule == citedRule && r.value.version == p.version
  {
    SourceIsFound(p.sources, e.sourceId);
  }

  /** A result is produced exactly for scored P0 and P1 assessments, and never an error. */
  lemma ProducedExactlyWhenActionable(c: Context, p: Profile)
    requires IsValidProfile(p)
    ensures Recommend(c, p).Success?
    ensures Recommend(c, p).value.Some? <==> c.status == Enums.Scored && c.priority in {Enums.P0, Enums.P1}
  {
    if IsActionable(c) && AlgorithmKey(c).Some? {
      var matching := MatchingRules(p.rules, c, AlgorithmKey(c).value);
      if matching != [] {
        var family := matching[0].recommended;
        var entry := ParameterSetFor(p, family, CategoryFor(family, c, p));
        if entry.Some? {
          EntryIsListed(p, family, CategoryFor(family, c, p));
          AutomateSucceeds(family, entry.value, matching[0].ruleId, c, p);
        }
      }
    }
  }

  lemma MatchingGivesChoice(f: Family, c: Context, p: Profile, algorithm: string)
    ensures var matching := MatchingRules(p.rules, c, algorithm);
            IsTheChoice(f, c, p, algorithm) <==> matching != [] && |Choices(matching)| == 1 && matching[0].recommended == f
  {
    var matching := MatchingRules(p.rules, c, algorithm);
    MatchingAreTheMatches(p.rules, c, algorithm);
    if matching != [] {
      SingleChoice(matching);
      assert matching[0] in matching;
    }
  }

  ghost predicate IsAutomatic(r: Result<Option<Advice>, Error>, f: Family) {
    r.Success? && r.value.Some? && r.value.value.Automatic? && r.value.value.family == f
  }

  /** The advice is automatic for a family exactly under `IsAutomaticFor`. */
  lemma AutomaticExactly(c: Context, p: Profile, f: Family)
    requires IsValidProfile(p)
    ensures IsAutomatic(Recommend(c, p), f) <==> IsAutomaticFor(f, c, p)
  {
    if IsActionable(c) && AlgorithmKey(c).Some? {
      var algorithm := AlgorithmKey(c).value;
      var matching := MatchingRules(p.rules, c, algorithm);
      MatchingGivesChoice(f, c, p, algorithm);
      if matching != [] {
        var family := matching[0].recommended;
        var entry := ParameterSetFor(p, family, CategoryFor(family, c, p));
        if entry.Some? {
          EntryIsListed(p, family, CategoryFor(family, c, p));
          AutomateSucceeds(family, entry.value, matching[0].ruleId, c, p);
        }
      }
    }
  }

  /** What an automatic advice consists of. */
  lemma AutomaticContents(c: Context, p: Profile, f: Family)
    requires IsValidProfile(p) && IsAutomaticFor(f, c, p)
    ensures var r := Recommend(c, p);
            && IsAutomatic(r, f)
            && var e := ParameterSetFor(p, f, CategoryFor(f, c, p)).value;
               var a := r.value.value;
               && a.parameterSet == e.name && a.category == CategoryFor(f, c, p)
               && a.isHybrid == c.requirements.hybrid && (a.partner.Some? <==> a.isHybrid)
               && a.facts.sourceId == e.sourceId && a.facts.sizes == e.sizes
               && FindSource(p.sources, e.sourceId) == Success(Source(a.facts.sourceId, a.facts.url))
               && (exists r :: r in p.rules && RuleMatches(r, c, AlgorithmKey(c).value) && r.ruleId == a.citedRule)
  {
    var algorithm := AlgorithmKey(c).value;
    var matching := MatchingRules(p.rules, c, algorithm);
    MatchingGivesChoice(f, c, p, algorithm);
    MatchingAreTheMatches(p.rules, c, algorithm);
    assert matching[0] in matching;
    var entry := ParameterSetFor(p, f, CategoryFor(f, c, p));
    EntryIsListed(p, f, CategoryFor(f, c, p));
    AutomateSucceeds(f, entry.value, matching[0].ruleId, c, p);
  }

  // ----- changing the rules -----

  /** The same choice; only the rule named in the rationale may differ. */
  ghost predicate IsSameChoice(a: Advice, b: Advice) {
    a.Automatic? && b.Automatic? && a.(citedRule := b.citedRule) == b
  }

  /** Two profiles that differ at most in rules and in the order of parameter sets. */
  ghost predicate DifferInRules(p: Profile, q: Profile) {
    && q == p.(rules := q.rules, parameterSets := q.parameterSets)
    && multiset(q.parameterSets) == multiset(p.parameterSets)
  }

  lemma SameFamilySameChoice(c: Context, p: Profile, q: Profile, f: Family)
    requires IsValidProfile(p) && IsValidProfile(q) && DifferInRules(p, q)
    requires IsAutomaticFor(f, c, p) && IsAutomaticFor(f, c, q)
    ensures Recommend(c, p).Success? && Recommend(c, q).Success?
    ensures Recommend(c, p).value.Some? && Recommend(c, q).value.Some?
    ensures IsSameChoice(Recommend(c, p).value.value, Recommend(c, q).value.value)
  {
    ParameterSetIgnoresOrder(p, q, f, CategoryFor(f, c, p));
    AutomaticContents(c, p, f);
    AutomaticContents(c, q, f);
  }

  lemma AutomaticFamily(c: Context, p: Profile) returns (f: Family)
    requires IsValidProfile(p)
    requires Recommend(c, p).Success? && Recommend(c, p).value.Some? && Recommend(c, p).value.value.Automatic?
    ensures IsAutomaticFor(f, c, p) && IsAutomatic(Recommend(c, p), f)
  {
    f := Recommend(c, p).value.value.family;
    AutomaticExactly(c, p, f);
  }

  /** Some matching rule recommends another family. */
  ghost predicate Conflicts(rules: seq<Rule>, c: Context, algorithm: string, f: Family) {
    exists r :: r in rules && RuleMatches(r, c, algorithm) && r.recommended != f
  }

  /**
   Adding rules never switches an automatic choice: it keeps it, or sends it to manual review exactly when an added
   rule that matches recommends another family.
   */
  lemma AddingRulesNeverSwitches(c: Context, p: Profile, rules: seq<Rule>)
    requires IsValidProfile(p)
    requires forall r :: r in p.rules ==> r in rules
    requires Recommend(c, p).Success? && Recommend(c, p).value.Some? && Recommend(c, p).value.value.Automatic?
    ensures AlgorithmKey(c).Some?
    ensures var before, more := Recommend(c, p).value.value, Recommend(c, p.(rules := rules));
            && more.Success? && more.value.Some?
            && if Conflicts(rules, c, AlgorithmKey(c).value, before.family) then more.value.value.Manual?
               else IsSameChoice(before, more.value.value)
  {
    var q := p.(rules := rules);
    var f := AutomaticFamily(c, p);
    ProducedExactlyWhenActionable(c, q);
    var r :| r in p.rules && RuleMatches(r, c, AlgorithmKey(c).value);
    assert r in rules && r.recommended == f;
    if Recommend(c, q).value.value.Automatic? {
      var g := AutomaticFamily(c, q);
      assert g == f;
    }
    if !Conflicts(rules, c, AlgorithmKey(c).value, f) {
      assert IsAutomaticFor(f, c, q);
      SameFamilySameChoice(c, p, q, f);
    }
  }

  ghost predicate HaveSameRules(a: seq<Rule>, b: seq<Rule>) {
    forall r :: r in a <==> r in b
  }

  lemma SameSingleton<T>(a: seq<T>, b: seq<T>)
    requires multiset(a) == multiset(b)
    ensures |a| == |b|
    ensures |a| == 1 ==> a == b
  {
    assert |multiset(a)| == |a| && |multiset(b)| == |b|;
    if |a| == 1 {
      assert a[0] in multiset(b);
      assert a[0] == b[0];
    }
  }

  lemma ParameterSetIgnoresOrder(p: Profile, q: Profile, family: Family, category: Option<Category>)
    requires multiset(p.parameterSets) == multiset(q.parameterSets)
    ensures ParameterSetFor(p, family, category) == ParameterSetFor(q, family, category)
  {
    EntriesAreSelected(p.parameterSets, family, category);
    EntriesAreSelected(q.parameterSets, family, category);
    SameSingleton(Entries(p.parameterSets, family, category), Entries(q.parameterSets, family, category));
  }

  lemma SameChoices(c: Context, p: Profile, q: Profile, algorithm: string)
    requires HaveSameRules(p.rules, q.rules)
    ensures var m, n := MatchingRules(p.rules, c, algorithm), MatchingRules(q.rules, c, algorithm);
            && Choices(m) == Choices(n) && (m == [] <==> n == [])
            && (m != [] && |Choices(m)| == 1 ==> m[0].recommended == n[0].recommended)
  {
    var m, n := MatchingRules(p.rules, c, algorithm), MatchingRules(q.rules, c, algorithm);
    MatchingAreTheMatches(p.rules, c, algorithm);
    MatchingAreTheMatches(q.rules, c, algorithm);
    assert Choices(m) == Choices(n);
    if n != [] {
      assert n[0] in n && n[0] in m;
      SingleChoice(m);
    }
    if m != [] {
      assert m[0] in m && m[0] in n;
    }
  }

  /** Either no selection changes, or one profile's choice is automatic and then so is the other's. */
  lemma SameManual(c: Context, p: Profile, q: Profile)
    requires HaveSameRules(p.rules, q.rules) && DifferInRules(p, q)
    requires forall f :: !IsAutomaticFor(f, c, p)
    ensures Recommend(c, p) == Recommend(c, q)
  {
    if IsActionable(c) && AlgorithmKey(c).Some? {
      var algorithm := AlgorithmKey(c).value;
      SameChoices(c, p, q, algorithm);
      var m := MatchingRules(p.rules, c, algorithm);
      if m != [] && |Choices(m)| == 1 {
        var f := m[0].recommended;
        MatchingGivesChoice(f, c, p, algorithm);
        assert !IsAutomaticFor(f, c, p);
        ParameterSetIgnoresOrder(p, q, f, CategoryFor(f, c, p));
      }
    }
  }

  lemma SameAutomatic(c: Context, p: Profile, q: Profile, f: Family)
    requires HaveSameRules(p.rules, q.rules) && DifferInRules(p, q)
    requires IsAutomaticFor(f, c, p)
    ensures IsAutomaticFor(f, c, q)
  {
    var algorithm := AlgorithmKey(c).value;
    MatchingGivesChoice(f, c, p, algorithm);
    SameChoices(c, p, q, algorithm);
    MatchingGivesChoice(f, c, q, algorithm);
    ParameterSetIgnoresOrder(p, q, f, CategoryFor(f, c, p));
  }

  /** Neither the order of the rules nor that of the parameter sets matters, save for the rule the rationale names. */
  lemma SelectionIgnoresOrder(c: Context, p: Profile, q: Profile)
    requires IsValidProfile(p) && HaveSameRules(p.rules, q.rules) && DifferInRules(p, q)
    ensures || Recommend(c, p) == Recommend(c, q)
            || (&& Recommend(c, p).Success? && Recommend(c, q).Success?
                && Recommend(c, p).value.Some? && Recommend(c, q).value.Some?
                && IsSameChoice(Recommend(c, p).value.value, Recommend(c, q).value.value))
  {
    if f :| IsAutomaticFor(f, c, p) {
      forall e | e in q.parameterSets ensures e in p.parameterSets {
        assert e in multiset(q.parameterSets) && e in multiset(p.parameterSets);
      }
      SameAutomatic(c, p, q, f);
      SameFamilySameChoice(c, p, q, f);
    } else {
      SameManual(c, p, q);
    }
  }
}
