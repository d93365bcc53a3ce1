/** The advice of the recommendation engine, condition by condition. */
module RecommendationRules {
  import opened Wrappers
  import Enums
  import opened AlgorithmNames
  import opened Recommendation

  // ----- what is advised on -----

  /** The algorithm the scanner named, or else the name of the artefact. */
  lemma KeyOfTheArtefact(c: Context)
    ensures c.algorithm.Some? && |c.algorithm.value| > 0 ==> AlgorithmKey(c) == Normalise(c.algorithm)
    ensures c.algorithm.None? || |c.algorithm.value| == 0 ==> AlgorithmKey(c) == Normalise(Some(c.name))
  {}

  // ----- rules -----

  /** The rule lists the algorithm, shares a purpose with the artefact, and its requirements are met. */
  ghost predicate Applies(r: Rule, c: Context, algorithm: string) {
    && (exists i :: 0 <= i < |r.currentAlgorithms| && r.currentAlgorithms[i] == algorithm)
    && (exists i :: 0 <= i < |c.purposes| && c.purposes[i] in r.purposes)
    && (r.requiresKeySizeBits.None? || (c.keySizeBits.Some? && c.keySizeBits.value == r.requiresKeySizeBits.value))
    && (r.requiresStateless.None? || c.requirements.stateless == r.requiresStateless.value)
  }

  ghost predicate SomeRuleApplies(c: Context, p: Profile, algorithm: string) {
    exists r :: r in p.rules && Applies(r, c, algorithm)
  }

  ghost predicate AllApplyingAdvise(c: Context, p: Profile, algorithm: string, f: Family) {
    forall r :: r in p.rules && Applies(r, c, algorithm) ==> r.recommended == f
  }

  lemma AppliesIsMatching(r: Rule, c: Context, algorithm: string)
    ensures Applies(r, c, algorithm) <==> RuleMatches(r, c, algorithm)
  {
    if RuleMatches(r, c, algorithm) {
      var p :| p in c.purposes && p in r.purposes;
      var i :| 0 <= i < |c.purposes| && c.purposes[i] == p;
    }
  }

  lemma ApplyingIsMatching(c: Context, p: Profile, algorithm: string)
    ensures SomeRuleApplies(c, p, algorithm) <==> MatchingRules(p.rules, c, algorithm) != []
    ensures forall f :: SomeRuleApplies(c, p, algorithm) && AllApplyingAdvise(c, p, algorithm, f) <==>
                        IsTheChoice(f, c, p, algorithm)
    ensures forall r :: r in MatchingRules(p.rules, c, algorithm) <==> r in p.rules && Applies(r, c, algorithm)
  {
    forall r ensures Applies(r, c, algorithm) <==> RuleMatches(r, c, algorithm) {
      AppliesIsMatching(r, c, algorithm);
    }
    MatchingAreTheMatches(p.rules, c, algorithm);
    var m := MatchingRules(p.rules, c, algorithm);
    if m != [] {
      assert m[0] in m;
    }
  }

  // ----- parameter sets -----

  /** AES has no category; any other family takes the required one, or else that of the policy. */
  ghost predicate IsWanted(e: ParameterSet, f: Family, c: Context, p: Profile) {
    && e.family == f
    && (f == Aes ==> e.category.None?)
    && (f != Aes && c.requirements.category.Some? ==> e.category == c.requirements.category)
    && (f != Aes && c.requirements.category.None? ==> e.category == Some(p.policyCategory))
  }

  /** `e` is wanted, is listed once, and nothing else is wanted. */
  ghost predicate IsOnlyWanted(e: ParameterSet, f: Family, c: Context, p: Profile) {
    && IsWanted(e, f, c, p) && multiset(p.parameterSets)[e] == 1
    && forall d :: d in p.parameterSets && IsWanted(d, f, c, p) ==> d == e
  }

  lemma OnlyWantedIsTaken(f: Family, c: Context, p: Profile, e: ParameterSet)
    ensures ParameterSetFor(p, f, CategoryFor(f, c, p)) == Some(e) <==> IsOnlyWanted(e, f, c, p)
  {
    var category := CategoryFor(f, c, p);
    var entries := Entries(p.parameterSets, f, category);
    assert forall d :: IsWanted(d, f, c, p) <==> Selects(d, f, category);
    EntriesAreSelected(p.parameterSets, f, category);
    if ParameterSetFor(p, f, category).Some? {
      EntryIsListed(p, f, category);
    }
    if IsOnlyWanted(e, f, c, p) {
      forall d ensures multiset(entries)[d] == if d == e then 1 else 0 {
        assert d in multiset(p.parameterSets) <==> d in p.parameterSets;
      }
      assert multiset(entries) == multiset([e]);
      SameSingleton([e], entries);
    }
  }

  ghost predicate HasOnlyWanted(f: Family, c: Context, p: Profile) {
    exists e :: IsOnlyWanted(e, f, c, p)
  }

  lemma HasOnlyWantedIsSome(f: Family, c: Context, p: Profile)
    ensures HasOnlyWanted(f, c, p) <==> ParameterSetFor(p, f, CategoryFor(f, c, p)).Some?
  {
    var entry := ParameterSetFor(p, f, CategoryFor(f, c, p));
    if entry.Some? {
      OnlyWantedIsTaken(f, c, p, entry.value);
    }
    if e :| IsOnlyWanted(e, f, c, p) {
      OnlyWantedIsTaken(f, c, p, e);
    }
  }

  // ----- the advice -----

  ghost predicate IsUrgent(c: Context) {
    c.status == Enums.Scored && (c.priority == Enums.P0 || c.priority == Enums.P1)
  }

  ghost predicate IsManualFor(r: Result<Option<Advice>, Error>, reason: Reason, version: string) {
    r == Success(Some(Manual(reason, version)))
  }

  /** The advice of an urgent assessment of an artefact with a known algorithm. */
  ghost predicate IsAdvised(r: Result<Option<Advice>, Error>, c: Context, p: Profile, algorithm: string) {
    && (IsManualFor(r, NoRule, p.version) <==> !SomeRuleApplies(c, p, algorithm))
    && (IsManualFor(r, SeveralFamilies, p.version) <==>
          exists r1, r2 :: && r1 in p.rules && Applies(r1, c, algorithm) && r2 in p.rules && Applies(r2, c, algorithm)
                           && r1.recommended != r2.recommended)
    && forall f :: SomeRuleApplies(c, p, algorithm) && AllApplyingAdvise(c, p, algorithm, f) ==>
         && (IsManualFor(r, NoUniqueParameterSet, p.version) <==> !HasOnlyWanted(f, c, p))
         && (IsManualFor(r, HybridWithoutKem, p.version) <==>
               HasOnlyWanted(f, c, p) && c.requirements.hybrid && f != MlKem)
         && (IsAutomatic(r, f) <==> HasOnlyWanted(f, c, p) && (c.requirements.hybrid ==> f == MlKem))
  }

  lemma FamiliesDisagree(c: Context, p: Profile, algorithm: string)
    requires SomeRuleApplies(c, p, algorithm)
    ensures |Choices(MatchingRules(p.rules, c, algorithm))| != 1 <==>
            exists r1, r2 :: && r1 in p.rules && Applies(r1, c, algorithm) && r2 in p.rules && Applies(r2, c, algorithm)
                             && r1.recommended != r2.recommended
  {
    var m := MatchingRules(p.rules, c, algorithm);
    ApplyingIsMatching(c, p, algorithm);
    SingleChoice(m);
    assert m[0] in m;
    if r1, r2 :| && r1 in p.rules && Applies(r1, c, algorithm) && r2 in p.rules && Applies(r2, c, algorithm)
                 && r1.recommended != r2.recommended {
      assert r1 in m && r2 in m;
    }
  }

  /** Each kind of advice, and each reason for manual review, under exactly its condition. */
  lemma AdviceExactly(c: Context, p: Profile)
    requires IsValidProfile(p) && IsUrgent(c)
    ensures IsManualFor(Recommend(c, p), NoAlgorithm, p.version) <==> AlgorithmKey(c).None?
    ensures AlgorithmKey(c).Some? ==> IsAdvised(Recommend(c, p), c, p, AlgorithmKey(c).value)
  {
    if AlgorithmKey(c).Some? {
      var algorithm := AlgorithmKey(c).value;
      var m := MatchingRules(p.rules, c, algorithm);
      ApplyingIsMatching(c, p, algorithm);
      if m != [] {
        FamiliesDisagree(c, p, algorithm);
        var f := m[0].recommended;
        assert m[0] in m;
        MatchingGivesChoice(f, c, p, algorithm);
        HasOnlyWantedIsSome(f, c, p);
        AutomaticExactly(c, p, f);
      }
    }
  }

  /** The source cited first under an id has this link. */
  ghost predicate IsFirstSource(sources: seq<Source>, id: string, url: string) {
    exists i :: && 0 <= i < |sources| && sources[i] == Source(id, url)
                && forall j :: 0 <= j < i ==> sources[j].sourceId != id
  }

  lemma {:induction false} FoundIsFirstSource(sources: seq<Source>, id: string)
    requires FindSource(sources, id).Success?
    ensures IsFirstSource(sources, id, FindSource(sources, id).value.url)
  {
    if sources[0].sourceId == id {
      assert sources[0] == Source(id, sources[0].url);
    } else {
      var rest := sources[1..];
      FoundIsFirstSource(rest, id);
      var i :| && 0 <= i < |rest| && rest[i] == Source(id, FindSource(sources, id).value.url)
               && forall j :: 0 <= j < i ==> rest[j].sourceId != id;
      assert sources[i + 1] == rest[i] && forall j :: 0 < j < i + 1 ==> sources[j] == rest[j - 1];
    }
  }

  /** The first rule that applies has this id. */
  ghost predicate IsFirstApplying(rules: seq<Rule>, c: Context, algorithm: string, ruleId: string) {
    exists i :: && 0 <= i < |rules| && Applies(rules[i], c, algorithm) && rules[i].ruleId == ruleId
                && forall j :: 0 <= j < i ==> !Applies(rules[j], c, algorithm)
  }

  lemma {:induction false} FirstMatchIsFirstApplying(rules: seq<Rule>, c: Context, algorithm: string)
    requires MatchingRules(rules, c, algorithm) != []
    ensures IsFirstApplying(rules, c, algorithm, MatchingRules(rules, c, algorithm)[0].ruleId)
  {
    AppliesIsMatching(rules[0], c, algorithm);
    if !RuleMatches(rules[0], c, algorithm) {
      var rest := rules[1..];
      FirstMatchIsFirstApplying(rest, c, algorithm);
      var i :| && 0 <= i < |rest| && Applies(rest[i], c, algorithm)
               && rest[i].ruleId == MatchingRules(rest, c, algorithm)[0].ruleId
               && forall j :: 0 <= j < i ==> !Applies(rest[j], c, algorithm);
      assert rules[i + 1] == rest[i] && forall j :: 0 < j < i + 1 ==> rules[j] == rest[j - 1];
    }
  }

  /** What an automatic advice says: the one wanted parameter set, its published sizes with their source, and the partner. */
  lemma AutomaticInWords(c: Context, p: Profile, f: Family, e: ParameterSet)
    requires IsValidProfile(p) && IsUrgent(c) && AlgorithmKey(c).Some?
    requires IsAutomatic(Recommend(c, p), f) && IsOnlyWanted(e, f, c, p)
    ensures var a := Recommend(c, p).value.value;
            && a.parameterSet == e.name
            && (f == Aes ==> a.category.None?)
            && (f != Aes ==> a.category == Some(c.requirements.category.GetOr(p.policyCategory)))
            && a.isHybrid == c.requirements.hybrid
            && (c.requirements.hybrid ==> a.partner == Some("X25519"))
            && (!c.requirements.hybrid ==> a.partner.None?)
            && a.facts.sourceId == e.sourceId && a.facts.sizes == e.sizes
            && IsFirstSource(p.sources, e.sourceId, a.facts.url)
            && IsFirstApplying(p.rules, c, AlgorithmKey(c).value, a.citedRule)
            && a.version == p.version
  {
    var algorithm := AlgorithmKey(c).value;
    AutomaticExactly(c, p, f);
    OnlyWantedIsTaken(f, c, p, e);
    MatchingGivesChoice(f, c, p, algorithm);
    ApplyingIsMatching(c, p, algorithm);
    FirstMatchIsFirstApplying(p.rules, c, algorithm);
    SourceIsFound(p.sources, e.sourceId);
    FoundIsFirstSource(p.sources, e.sourceId);
  }
}
