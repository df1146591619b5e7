/** Fallback chains: manual selectors first, then the closest automatic candidates
    (internal/fallback/resolver.go).  Elo scores are real numbers. */
module Fallback {
  import opened Text
  import opened Sorting
  import opened ModelSelectors
  import SortedKeys

  const MAX_AUTO_FALLBACK_CANDIDATES := 5

  const PREFERRED_RANKING_NAMES := [
    "chatbot_arena", "chatbot_arena_coding", "chatbot_arena_math", "chatbot_arena_creative_writing",
    "chatbot_arena_vision"]

  datatype Ranking = Ranking(elo: Option<real>, rank: Option<int>)

  datatype Metadata = Metadata(
    categories: seq<string>, family: string, rankings: map<string, Ranking>, capabilities: map<string, bool>)

  datatype Model = Model(id: string, metadata: Option<Metadata>)

  datatype ModelInfo = ModelInfo(model: Model, providerName: string)

  // A row of the registry's listing
  datatype Listed = Listed(selector: string, model: Model, providerName: string)

  datatype Registry = Registry(getModel: string -> Option<ModelInfo>, listing: seq<Listed>)

  datatype Mode = Unset | Off | Manual | Auto

  datatype Operation = ChatCompletions | Responses | Embeddings | OtherOperation

  datatype Resolution = Resolution(
    requestedModel: string, requestedHint: string, requestedQualified: string, resolved: ModelSelector)

  // Keys

  function SourceKey(r: Resolution, source: Option<ModelInfo>): string {
    if source.Some? && source.value.providerName != "" && source.value.model.id != ""
    then source.value.providerName + "/" + source.value.model.id
    else Trim(QualifiedModel(r.resolved))
  }

  /** The candidate keys in order of preference, before blanks and repeats are dropped. */
  function RawMatchKeys(r: Resolution, source: Option<ModelInfo>): seq<string> {
    (if Trim(r.requestedHint) != "" then [r.requestedQualified] else [])
    + (if source.Some? && source.value.providerName != "" && source.value.model.id != ""
       then [source.value.providerName + "/" + source.value.model.id] else [])
    + (if Trim(r.resolved.provider) != "" then [QualifiedModel(r.resolved)] else [])
    + [r.requestedModel, r.resolved.model, r.requestedQualified, QualifiedModel(r.resolved)]
  }

  /** The trimmed non-blank strings, each at its first occurrence. */
  function FirstUses(keys: seq<string>): (r: seq<string>)
    ensures forall i, j :: 0 <= i < j < |r| ==> r[i] != r[j]
    ensures forall k :: k in r <==> k != "" && exists i :: 0 <= i < |keys| && Trim(keys[i]) == k
  {
    if keys == [] then []
    else
      var n := |keys| - 1;
      var front := FirstUses(keys[..n]);
      var k := Trim(keys[n]);
      assert forall i :: 0 <= i < n ==> keys[..n][i] == keys[i];
      if k == "" || k in front then front else front + [k]
  }

  lemma FirstUsesStep(keys: seq<string>, i: nat)
    requires i < |keys|
    ensures FirstUses(keys[..i + 1])
      == var front, k := FirstUses(keys[..i]), Trim(keys[i]); if k == "" || k in front then front else front + [k]
  {
    hide Trim;
    assert keys[..i + 1][..i] == keys[..i];
  }

  lemma NoKeys()
    ensures FirstUses([]) == []
  {
  }

  method MatchKeys(r: Resolution, source: Option<ModelInfo>) returns (result: seq<string>)
    ensures result == FirstUses(RawMatchKeys(r, source))
  {
    hide FirstUses, RawMatchKeys, Trim;
    var keys := RawMatchKeys(r, source);
    var seen: set<string> := {};
    NoKeys();
    result := [];
    for i := 0 to |keys|
      invariant result == FirstUses(keys[..i])
      invariant seen == set k | k in result
    {
      FirstUsesStep(keys, i);
      var key := Trim(keys[i]);
      if key == "" || key in seen {
        continue;
      }
      seen := seen + {key};
      result := result + [key];
    }
    assert keys[..|keys|] == keys;
  }

  // Manual selectors

  function ResolveSelector(g: Registry, model: string): Option<ModelSelector> {
    var m := Trim(model);
    if m == "" || g.getModel(m).None? then None
    else Some(ModelSelector(g.getModel(m).value.model.id, g.getModel(m).value.providerName))
  }

  /** The configured models that resolve, in configured order, without the source and repeats. */
  function ManualChain(g: Registry, models: seq<string>, sourceKey: string): seq<ModelSelector> {
    if models == [] then []
    else
      var n := |models| - 1;
      var front := ManualChain(g, models[..n], sourceKey);
      var s := ResolveSelector(g, models[n]);
      if s.None? || QualifiedModel(s.value) == sourceKey || QualifiedModel(s.value) in Keys(front) then front
      else front + [s.value]
  }

  function Keys(chain: seq<ModelSelector>): set<string> {
    set i | 0 <= i < |chain| :: QualifiedModel(chain[i])
  }

  /** No selector is the source or repeats another. */
  ghost predicate GoodChain(chain: seq<ModelSelector>, sourceKey: string) {
    && (forall i :: 0 <= i < |chain| ==> QualifiedModel(chain[i]) != sourceKey)
    && (forall i, j :: 0 <= i < j < |chain| ==> QualifiedModel(chain[i]) != QualifiedModel(chain[j]))
  }

  method ManualSelectorsFor(g: Registry, manual: map<string, seq<string>>, matchKeys: seq<string>, sourceKey: string)
    returns (result: seq<ModelSelector>, seen: set<string>)
    ensures result == ManualFor(g, manual, matchKeys, sourceKey) && seen == Keys(result)
  {
    for m := 0 to |matchKeys|
      invariant forall j :: 0 <= j < m ==> matchKeys[j] !in manual
      invariant ManualFor(g, manual, matchKeys, sourceKey) == ManualFor(g, manual, matchKeys[m..], sourceKey)
    {
      if matchKeys[m] !in manual {
        assert matchKeys[m..][1..] == matchKeys[m + 1..];
        continue;
      }
      var models := manual[matchKeys[m]];
      result, seen := [], {};
      for i := 0 to |models|
        invariant result == ManualChain(g, models[..i], sourceKey) && seen == Keys(result)
      {
        assert models[..i + 1][..i] == models[..i];
        var selector := ResolveSelector(g, models[i]);
        if selector.None? || QualifiedModel(selector.value) == sourceKey {
          continue;
        }
        var candidateKey := QualifiedModel(selector.value);
        if candidateKey in seen {
          continue;
        }
        KeysMore(result, selector.value);
        seen := seen + {candidateKey};
        result := result + [selector.value];
      }
      assert models[..|models|] == models;
      return;
    }
    return [], {};
  }

  lemma KeysMore(chain: seq<ModelSelector>, s: ModelSelector)
    ensures Keys(chain + [s]) == Keys(chain) + {QualifiedModel(s)}
  {
    var more := chain + [s];
    forall k | k in Keys(chain) + {QualifiedModel(s)} ensures k in Keys(more) {
      if k in Keys(chain) {
        var i :| 0 <= i < |chain| && QualifiedModel(chain[i]) == k;
        assert more[i] == chain[i];
      } else {
        assert more[|chain|] == s;
      }
    }
  }

  /** The first match key with a manual list decides, even when nothing in the list resolves. */
  function ManualFor(g: Registry, manual: map<string, seq<string>>, matchKeys: seq<string>,
                     sourceKey: string): seq<ModelSelector>
  {
    if matchKeys == [] then []
    else if matchKeys[0] in manual then ManualChain(g, manual[matchKeys[0]], sourceKey)
    else ManualFor(g, manual, matchKeys[1..], sourceKey)
  }

  lemma {:induction false} ManualChainGood(g: Registry, models: seq<string>, sourceKey: string)
    ensures GoodChain(ManualChain(g, models, sourceKey), sourceKey)
  {
    if models != [] {
      ManualChainGood(g, models[..|models| - 1], sourceKey);
    }
  }

  lemma {:induction false} ManualForGood(g: Registry, manual: map<string, seq<string>>, matchKeys: seq<string>,
      sourceKey: string)
    ensures GoodChain(ManualFor(g, manual, matchKeys, sourceKey), sourceKey)
  {
    if matchKeys != [] {
      if matchKeys[0] in manual {
        ManualChainGood(g, manual[matchKeys[0]], sourceKey);
      } else {
        ManualForGood(g, manual, matchKeys[1..], sourceKey);
      }
    }
  }

  // Ranking automatic candidates

  datatype Scored = Scored(
    selector: ModelSelector, key: string, sameModelId: bool, sameFamily: bool,
    scoreDiff: Option<real>, rankDiff: Option<int>, capabilityOverlap: nat)

  /** The comparator of the candidate sort. */
  predicate Better(a: Scored, b: Scored) {
    if a.sameModelId != b.sameModelId then a.sameModelId
    else if a.sameFamily != b.sameFamily then a.sameFamily
    else if a.scoreDiff.Some? != b.scoreDiff.Some? then a.scoreDiff.Some?
    else if a.scoreDiff.Some? && a.scoreDiff.value != b.scoreDiff.value then a.scoreDiff.value < b.scoreDiff.value
    else if a.rankDiff.Some? != b.rankDiff.Some? then a.rankDiff.Some?
    else if a.rankDiff.Some? && a.rankDiff.value != b.rankDiff.value then a.rankDiff.value < b.rankDiff.value
    else if a.capabilityOverlap != b.capabilityOverlap then a.capabilityOverlap > b.capabilityOverlap
    else Less(a.key, b.key)
  }

  ghost predicate DistinctKeys(s: seq<Scored>) {
    forall i, j :: 0 <= i < j < |s| ==> s[i].key != s[j].key
  }

  /** The comparator is a strict order, total on candidates with distinct keys. */
  lemma BetterOrders(s: seq<Scored>)
    requires DistinctKeys(s)
    ensures Ordering(Better) && DecidesOn(Better, s)
  {
    forall a: Scored ensures !Better(a, a) { LessIrreflexive(a.key); }
    forall a, b, c | Better(a, b) && Better(b, c) ensures Better(a, c) { BetterTransitive(a, b, c); }
    forall i, j | 0 <= i < j < |s| ensures Better(s[i], s[j]) || Better(s[j], s[i]) { LessTotal(s[i].key, s[j].key); }
  }

  lemma BetterTransitive(a: Scored, b: Scored, c: Scored)
    requires Better(a, b) && Better(b, c)
    ensures Better(a, c)
  {
    if Less(a.key, b.key) && Less(b.key, c.key) {
      LessTransitive(a.key, b.key, c.key);
    }
  }

  function RankingByName(rankings: map<string, Ranking>, name: string): Option<Ranking> {
    if name in rankings && (rankings[name].elo.Some? || rankings[name].rank.Some?) then Some(rankings[name]) else None
  }

  function AbsReal(x: real): real { if x < 0.0 then -x else x }

  function AbsInt(x: int): int { if x < 0 then -x else x }

  predicate SameFamily(source: Metadata, candidate: Metadata) {
    Trim(source.family) != "" && Trim(candidate.family) != "" && Trim(source.family) == Trim(candidate.family)
  }

  function CapabilityOverlap(source: map<string, bool>, candidate: map<string, bool>): nat {
    |set k | k in source && source[k] && k in candidate && candidate[k]|
  }

  predicate SupportsCategory(meta: Metadata, required: string) {
    required == "" || required in meta.categories
  }

  // What the candidates are measured against
  datatype Source = Source(model: Model, meta: Metadata, key: string, category: string, rankingName: string,
      ranking: Ranking)

  function Score(src: Source, c: Listed, seen: set<string>): Option<Scored> {
    var key := Trim(c.selector);
    if key == "" || key == src.key || key in seen || c.model.metadata.None? then None
    else
      var meta := c.model.metadata.value;
      var ranking := RankingByName(meta.rankings, src.rankingName);
      if !SupportsCategory(meta, src.category) || ranking.None? then None
      else
        Some(Scored(
          ModelSelector(c.model.id, c.providerName), key, c.model.id == src.model.id, SameFamily(src.meta, meta),
          if src.ranking.elo.Some? && ranking.value.elo.Some?
            then Some(AbsReal(ranking.value.elo.value - src.ranking.elo.value)) else None,
          if src.ranking.rank.Some? && ranking.value.rank.Some?
            then Some(AbsInt(ranking.value.rank.value - src.ranking.rank.value)) else None,
          CapabilityOverlap(src.meta.capabilities, meta.capabilities)))
  }

  function Candidates(src: Source, listing: seq<Listed>, seen: set<string>): (r: seq<Scored>)
    ensures forall c :: c in r <==> exists i :: 0 <= i < |listing| && Score(src, listing[i], seen) == Some(c)
  {
    if listing == [] then []
    else
      var n := |listing| - 1;
      assert forall i :: 0 <= i < n ==> listing[..n][i] == listing[i];
      var front := Candidates(src, listing[..n], seen);
      match Score(src, listing[n], seen)
      case None => front
      case Some(c) => front + [c]
  }

  function Selectors(s: seq<Scored>): (r: seq<ModelSelector>)
    ensures |r| == |s| && forall i :: 0 <= i < |s| ==> r[i] == s[i].selector
  {
    if s == [] then [] else Selectors(s[..|s| - 1]) + [s[|s| - 1].selector]
  }

  function FirstFive(s: seq<Scored>): seq<Scored> {
    if |s| <= MAX_AUTO_FALLBACK_CANDIDATES then s else s[..MAX_AUTO_FALLBACK_CANDIDATES]
  }

  /** The at most five best candidates, best first. */
  function AutoChain(src: Source, listing: seq<Listed>, seen: set<string>): seq<ModelSelector> {
    Selectors(FirstFive(Sort(Better, Candidates(src, listing, seen))))
  }

  lemma CandidatesStep(src: Source, listing: seq<Listed>, i: nat, seen: set<string>)
    requires i < |listing|
    ensures Candidates(src, listing[..i + 1], seen)
      == match Score(src, listing[i], seen)
         case None => Candidates(src, listing[..i], seen)
         case Some(c) => Candidates(src, listing[..i], seen) + [c]
  {
    hide Score;
    assert listing[..i + 1][..i] == listing[..i];
  }

  method AutoSelectorsFor(src: Source, listing: seq<Listed>, seen: set<string>) returns (result: seq<ModelSelector>)
    ensures result == AutoChain(src, listing, seen)
  {
    var candidates: seq<Scored> := [];
    assert Candidates(src, listing[..0], seen) == [];
    hide Score, Better, Candidates, Sort;
    for i := 0 to |listing|
      invariant candidates == Candidates(src, listing[..i], seen)
    {
      CandidatesStep(src, listing, i, seen);
      var entry := Score(src, listing[i], seen);
      if entry.None? {
        continue;
      }
      candidates := candidates + [entry.value];
    }
    assert listing[..|listing|] == listing;
    candidates := Sort(Better, candidates);
    var limit := if |candidates| < MAX_AUTO_FALLBACK_CANDIDATES then |candidates| else MAX_AUTO_FALLBACK_CANDIDATES;
    result := [];
    for i := 0 to limit
      invariant result == Selectors(candidates[..i])
    {
      assert candidates[..i + 1][..i] == candidates[..i];
      result := result + [candidates[i].selector];
    }
    assert candidates[..limit] == FirstFive(candidates);
  }

  /** The registry lists each model under its own qualified name. */
  ghost predicate GoodListing(listing: seq<Listed>) {
    && (forall i :: 0 <= i < |listing| ==>
          Trim(listing[i].selector) == QualifiedModel(ModelSelector(listing[i].model.id, listing[i].providerName)))
    && (forall i, j :: 0 <= i < j < |listing| ==> Trim(listing[i].selector) != Trim(listing[j].selector))
  }

  lemma ScoreKey(src: Source, c: Listed, seen: set<string>)
    ensures var s := Score(src, c, seen); s.Some? ==>
      && s.value.key == Trim(c.selector) && s.value.key != src.key && s.value.key !in seen
      && s.value.selector == ModelSelector(c.model.id, c.providerName)
  {
    hide Trim, SameFamily, SupportsCategory, RankingByName, CapabilityOverlap;
  }

  lemma {:induction false} CandidatesDistinct(src: Source, listing: seq<Listed>, seen: set<string>)
    requires GoodListing(listing)
    ensures var cs := Candidates(src, listing, seen);
      && DistinctKeys(cs)
      && forall c :: c in cs ==> c.key == QualifiedModel(c.selector) && c.key != src.key && c.key !in seen
  {
    hide Trim, QualifiedModel, Score;
    if listing != [] {
      var n := |listing| - 1;
      var front := listing[..n];
      assert forall i :: 0 <= i < n ==> front[i] == listing[i];
      CandidatesDistinct(src, front, seen);
      ScoreKey(src, listing[n], seen);
      forall c | c in Candidates(src, front, seen) ensures c.key != Trim(listing[n].selector) {
        var i :| 0 <= i < n && Score(src, front[i], seen) == Some(c);
        ScoreKey(src, listing[i], seen);
      }
    }
  }

  /** Every candidate left out is worse than every one chosen, so the choice is the five least
      candidates in order. */
  lemma AutoIsBest(src: Source, listing: seq<Listed>, seen: set<string>)
    requires GoodListing(listing)
    ensures var cs := Candidates(src, listing, seen); var best := FirstFive(Sort(Better, cs));
      && SortedBy(Better, best) && (forall c :: c in best ==> c in cs)
      && |best| == (if |cs| < MAX_AUTO_FALLBACK_CANDIDATES then |cs| else MAX_AUTO_FALLBACK_CANDIDATES)
      && forall c, d :: c in cs && c !in best && d in best ==> Better(d, c)
  {
    hide Candidates, Better, Sort, FirstFive;
    var cs := Candidates(src, listing, seen);
    CandidatesDistinct(src, listing, seen);
    BetterOrders(cs);
    SortSorts(Better, cs);
    SortKeeps(Better, cs);
    FirstFiveAreBest(Sort(Better, cs));
  }

  lemma FirstFiveAreBest(sorted: seq<Scored>)
    requires SortedBy(Better, sorted)
    ensures var best := FirstFive(sorted);
      && SortedBy(Better, best) && (forall c :: c in best ==> c in sorted)
      && |best| == (if |sorted| < MAX_AUTO_FALLBACK_CANDIDATES then |sorted| else MAX_AUTO_FALLBACK_CANDIDATES)
      && forall c, d :: c in sorted && c !in best && d in best ==> Better(d, c)
  {
    hide Better;
    var best := FirstFive(sorted);
    assert forall i :: 0 <= i < |best| ==> sorted[i] == best[i] && best[i] in best;
    forall c, d | c in sorted && c !in best && d in best ensures Better(d, c) {
      var i :| 0 <= i < |sorted| && sorted[i] == c;
      var j :| 0 <= j < |best| && best[j] == d;
    }
  }

  // The choice in terms of the registry's metadata

  /** The row can be fallen back to: a model with metadata of the category and a rank or score in
      the ranking, neither the source nor taken. */
  predicate Usable(src: Source, c: Listed, seen: set<string>) {
    && Trim(c.selector) != "" && Trim(c.selector) != src.key && Trim(c.selector) !in seen
    && c.model.metadata.Some?
    && var meta := c.model.metadata.value;
    && (src.category == "" || exists i :: 0 <= i < |meta.categories| && meta.categories[i] == src.category)
    && src.rankingName in meta.rankings
    && (meta.rankings[src.rankingName].elo.Some? || meta.rankings[src.rankingName].rank.Some?)
  }

  predicate SameModel(src: Source, c: Listed) { c.model.id == src.model.id }

  predicate OfFamily(src: Source, c: Listed)
    requires c.model.metadata.Some?
  {
    Trim(src.meta.family) == Trim(c.model.metadata.value.family) != ""
  }

  /** How far the row's Elo score is from the source's, where both have one. */
  function EloGap(src: Source, c: Listed): Option<real>
    requires Ranked(src, c)
  {
    var elo := c.model.metadata.value.rankings[src.rankingName].elo;
    if src.ranking.elo.None? || elo.None? then None
    else if elo.value <= src.ranking.elo.value then Some(src.ranking.elo.value - elo.value)
    else Some(elo.value - src.ranking.elo.value)
  }

  function RankGap(src: Source, c: Listed): Option<int>
    requires Ranked(src, c)
  {
    var rank := c.model.metadata.value.rankings[src.rankingName].rank;
    if src.ranking.rank.None? || rank.None? then None
    else if rank.value <= src.ranking.rank.value then Some(src.ranking.rank.value - rank.value)
    else Some(rank.value - src.ranking.rank.value)
  }

  /** The capabilities both have. */
  function SharedCapabilities(src: Source, c: Listed): set<string>
    requires c.model.metadata.Some?
  {
    var other := c.model.metadata.value.capabilities;
    set k | k in src.meta.capabilities && k in other && src.meta.capabilities[k] && other[k]
  }

  /** Row `c` is as good a fallback as `d`: the same model before another one, then the same
      family, then a known and smaller Elo gap, then a known and smaller rank gap, then more
      shared capabilities, then the smaller name. */
  ghost predicate AsNear(src: Source, c: Listed, d: Listed) {
    && Ranked(src, c) && Ranked(src, d)
    && NoFarther(src, c, d)
  }

  predicate Ranked(src: Source, c: Listed) {
    c.model.metadata.Some? && src.rankingName in c.model.metadata.value.rankings
  }

  ghost predicate NoFarther(src: Source, c: Listed, d: Listed)
    requires Ranked(src, c) && Ranked(src, d)
  {
    var sameModel := SameModel(src, c) == SameModel(src, d);
    var sameFamily := sameModel && OfFamily(src, c) == OfFamily(src, d);
    var sameElo := sameFamily && EloGap(src, c) == EloGap(src, d);
    var sameRank := sameElo && RankGap(src, c) == RankGap(src, d);
    && (SameModel(src, d) ==> SameModel(src, c))
    && (sameModel && OfFamily(src, d) ==> OfFamily(src, c))
    && (sameFamily && EloGap(src, d).Some? ==> EloGap(src, c).Some? && EloGap(src, c).value <= EloGap(src, d).value)
    && (sameElo && RankGap(src, d).Some? ==> RankGap(src, c).Some? && RankGap(src, c).value <= RankGap(src, d).value)
    && (sameRank ==> |SharedCapabilities(src, c)| >= |SharedCapabilities(src, d)|)
    && (sameRank && |SharedCapabilities(src, c)| == |SharedCapabilities(src, d)| ==>
          !Less(Trim(d.selector), Trim(c.selector)))
  }

  lemma UsableScores(src: Source, c: Listed, seen: set<string>)
    ensures Score(src, c, seen).Some? <==> Usable(src, c, seen)
  {
    hide Trim, SameFamily, CapabilityOverlap;
  }

  lemma SharedIsOverlap(src: Source, c: Listed)
    requires c.model.metadata.Some?
    ensures |SharedCapabilities(src, c)|
         == CapabilityOverlap(src.meta.capabilities, c.model.metadata.value.capabilities)
  {
    var a, b := src.meta.capabilities, c.model.metadata.value.capabilities;
    assert SharedCapabilities(src, c) == set k | k in a && a[k] && k in b && b[k];
  }

  lemma ScoreReads(src: Source, c: Listed, seen: set<string>)
    requires Usable(src, c, seen) && Score(src, c, seen).Some?
    ensures var s := Score(src, c, seen).value;
      && s.selector == ModelSelector(c.model.id, c.providerName) && s.key == Trim(c.selector)
      && s.sameModelId == SameModel(src, c) && s.sameFamily == OfFamily(src, c)
      && s.scoreDiff == EloGap(src, c) && s.rankDiff == RankGap(src, c)
      && s.capabilityOverlap == |SharedCapabilities(src, c)|
  {
    hide Trim, SharedCapabilities, CapabilityOverlap;
    SharedIsOverlap(src, c);
  }

  lemma BetterIsNear(src: Source, c: Listed, d: Listed, seen: set<string>)
    requires Usable(src, c, seen) && Usable(src, d, seen) && Score(src, c, seen).Some? && Score(src, d, seen).Some?
    requires Better(Score(src, c, seen).value, Score(src, d, seen).value)
    ensures AsNear(src, c, d)
  {
    ScoreReads(src, c, seen);
    ScoreReads(src, d, seen);
    if Less(Trim(c.selector), Trim(d.selector)) && Less(Trim(d.selector), Trim(c.selector)) {
      LessTransitive(Trim(c.selector), Trim(d.selector), Trim(c.selector));
      LessIrreflexive(Trim(c.selector));
    }
    hide Score, Usable, Trim, Less, EloGap, RankGap, SharedCapabilities, SameModel, OfFamily;
  }

  /** The listing row behind a candidate. */
  ghost function RowOf(src: Source, listing: seq<Listed>, seen: set<string>, c: Scored): (row: Listed)
    requires c in Candidates(src, listing, seen)
    ensures row in listing && Score(src, row, seen) == Some(c)
  {
    var i :| 0 <= i < |listing| && Score(src, listing[i], seen) == Some(c);
    listing[i]
  }

  /** The rows behind the chosen candidates. */
  ghost predicate AreRows(src: Source, listing: seq<Listed>, seen: set<string>, rows: seq<Listed>) {
    var best := FirstFive(Sort(Better, Candidates(src, listing, seen)));
    && |rows| == |best|
    && forall i :: 0 <= i < |rows| ==> rows[i] in listing && Score(src, rows[i], seen) == Some(best[i])
  }

  lemma RowsExist(src: Source, listing: seq<Listed>, seen: set<string>) returns (rows: seq<Listed>)
    requires GoodListing(listing)
    ensures AreRows(src, listing, seen, rows)
  {
    hide Better, Score, Sort, FirstFive, Candidates, GoodListing;
    AutoIsBest(src, listing, seen);
    var best := FirstFive(Sort(Better, Candidates(src, listing, seen)));
    rows := seq(|best|, i requires 0 <= i < |best| => RowOf(src, listing, seen, best[i]));
  }

  lemma RowsShown(src: Source, listing: seq<Listed>, seen: set<string>, rows: seq<Listed>, i: nat)
    requires AreRows(src, listing, seen, rows) && i < |rows|
    ensures rows[i] in listing && Usable(src, rows[i], seen)
    ensures |AutoChain(src, listing, seen)| == |rows|
    ensures AutoChain(src, listing, seen)[i] == ModelSelector(rows[i].model.id, rows[i].providerName)
  {
    hide Better, Score, Sort, FirstFive, Candidates, Usable;
    UsableScores(src, rows[i], seen);
    ScoreReads(src, rows[i], seen);
  }

  lemma RowsOrdered(src: Source, listing: seq<Listed>, seen: set<string>, rows: seq<Listed>, i: nat, j: nat)
    requires GoodListing(listing) && AreRows(src, listing, seen, rows) && i < j < |rows|
    ensures Usable(src, rows[i], seen) && Usable(src, rows[j], seen) && AsNear(src, rows[i], rows[j])
  {
    hide Better, Score, Sort, FirstFive, Candidates, Usable, GoodListing, AsNear, AutoChain;
    AutoIsBest(src, listing, seen);
    RowsShown(src, listing, seen, rows, i);
    RowsShown(src, listing, seen, rows, j);
    BetterIsNear(src, rows[i], rows[j], seen);
  }

  lemma RowsCounted(src: Source, listing: seq<Listed>, seen: set<string>, rows: seq<Listed>)
    requires AreRows(src, listing, seen, rows)
    ensures |rows| <= 5 && |AutoChain(src, listing, seen)| == |rows|
  {
    hide Better, Score, Sort, Candidates;
  }

  lemma OneRowPerKey(listing: seq<Listed>, a: Listed, b: Listed)
    requires GoodListing(listing) && a in listing && b in listing && a != b
    ensures Trim(a.selector) != Trim(b.selector)
  {
    hide Trim, QualifiedModel;
    var i :| 0 <= i < |listing| && listing[i] == a;
    var j :| 0 <= j < |listing| && listing[j] == b;
  }

  lemma LeftOutCandidate(src: Source, listing: seq<Listed>, seen: set<string>, rows: seq<Listed>, d: Listed)
    requires GoodListing(listing) && AreRows(src, listing, seen, rows)
    requires d in listing && Usable(src, d, seen) && d !in rows
    ensures Score(src, d, seen).Some? && Score(src, d, seen).value in Candidates(src, listing, seen)
    ensures Score(src, d, seen).value !in FirstFive(Sort(Better, Candidates(src, listing, seen)))
  {
    hide Better, Score, Sort, FirstFive, Usable, GoodListing;
    UsableScores(src, d, seen);
    ScoreKey(src, d, seen);
    var i :| 0 <= i < |listing| && listing[i] == d;
    var best := FirstFive(Sort(Better, Candidates(src, listing, seen)));
    forall j | 0 <= j < |best| ensures best[j] != Score(src, d, seen).value {
      assert rows[j] in rows;
      OneRowPerKey(listing, rows[j], d);
      ScoreKey(src, rows[j], seen);
    }
  }

  lemma LeftOutIsFarther(src: Source, listing: seq<Listed>, seen: set<string>, rows: seq<Listed>, d: Listed, i: nat)
    requires GoodListing(listing) && AreRows(src, listing, seen, rows)
    requires d in listing && Usable(src, d, seen) && d !in rows && i < |rows|
    ensures Usable(src, rows[i], seen) && AsNear(src, rows[i], d)
  {
    hide Better, Score, Usable, AsNear, Sort, FirstFive, Candidates, GoodListing, AutoChain;
    LeftOutCandidate(src, listing, seen, rows, d);
    AutoIsBest(src, listing, seen);
    RowsShown(src, listing, seen, rows, i);
    BetterIsNear(src, rows[i], d, seen);
  }

  lemma LeftOutMeansFive(src: Source, listing: seq<Listed>, seen: set<string>, rows: seq<Listed>, d: Listed)
    requires GoodListing(listing) && AreRows(src, listing, seen, rows)
    requires d in listing && Usable(src, d, seen) && d !in rows
    ensures |rows| == 5
  {
    hide Better, Score, Usable, Candidates, GoodListing, Sort;
    LeftOutCandidate(src, listing, seen, rows, d);
    var cs := Candidates(src, listing, seen);
    CandidatesDistinct(src, listing, seen);
    BetterOrders(cs);
    SortKeeps(Better, cs);
    assert Score(src, d, seen).value in Sort(Better, cs);
  }

  /** The chosen rows are usable and come nearest first; there are at most five, and five when a
      usable row is left out, which then is no nearer than any of them. */
  ghost predicate NearestFirst(src: Source, listing: seq<Listed>, seen: set<string>, rows: seq<Listed>) {
    && |rows| <= 5
    && (forall i :: 0 <= i < |rows| ==> rows[i] in listing && Usable(src, rows[i], seen))
    && (forall i, j :: 0 <= i < j < |rows| ==> AsNear(src, rows[i], rows[j]))
    && (forall d :: d in listing && Usable(src, d, seen) && d !in rows ==> |rows| == 5)
    && (forall d, i :: d in listing && Usable(src, d, seen) && d !in rows && 0 <= i < |rows| ==>
          AsNear(src, rows[i], d))
  }

  /** The automatic selectors are those of the nearest usable rows of the listing. */
  lemma AutoNearestFirst(src: Source, listing: seq<Listed>, seen: set<string>) returns (rows: seq<Listed>)
    requires GoodListing(listing)
    ensures NearestFirst(src, listing, seen, rows)
    ensures |AutoChain(src, listing, seen)| == |rows|
    ensures forall i :: 0 <= i < |rows| ==>
      AutoChain(src, listing, seen)[i] == ModelSelector(rows[i].model.id, rows[i].providerName)
  {
    hide Better, Score, Usable, AsNear, GoodListing, AutoChain, AreRows;
    rows := RowsExist(src, listing, seen);
    RowsCounted(src, listing, seen, rows);
    forall i | 0 <= i < |rows|
      ensures rows[i] in listing && Usable(src, rows[i], seen)
      ensures AutoChain(src, listing, seen)[i] == ModelSelector(rows[i].model.id, rows[i].providerName)
    {
      RowsShown(src, listing, seen, rows, i);
    }
    forall i, j | 0 <= i < j < |rows| ensures AsNear(src, rows[i], rows[j]) {
      RowsOrdered(src, listing, seen, rows, i, j);
    }
    forall d | d in listing && Usable(src, d, seen) && d !in rows ensures |rows| == 5 {
      LeftOutMeansFive(src, listing, seen, rows, d);
    }
    forall d, i | d in listing && Usable(src, d, seen) && d !in rows && 0 <= i < |rows|
      ensures AsNear(src, rows[i], d)
    {
      LeftOutIsFarther(src, listing, seen, rows, d, i);
    }
  }

  /** The choice does not depend on the order of the registry's listing. */
  lemma AutoIgnoresListingOrder(src: Source, a: seq<Listed>, b: seq<Listed>, seen: set<string>)
    requires GoodListing(a) && GoodListing(b) && forall c :: c in a <==> c in b
    ensures AutoChain(src, a, seen) == AutoChain(src, b, seen)
  {
    hide Better, Sort, Score;
    var x, y := Candidates(src, a, seen), Candidates(src, b, seen);
    CandidatesDistinct(src, a, seen);
    CandidatesDistinct(src, b, seen);
    BetterOrders(x);
    BetterOrders(y);
    SameCandidates(src, a, b, seen);
    SameCandidates(src, b, a, seen);
    SortIsCanonical(Better, x, y);
  }

  lemma SameCandidates(src: Source, a: seq<Listed>, b: seq<Listed>, seen: set<string>)
    requires forall c :: c in a ==> c in b
    ensures forall c :: c in Candidates(src, a, seen) ==> c in Candidates(src, b, seen)
  {
    hide Score;
    forall c | c in Candidates(src, a, seen) ensures c in Candidates(src, b, seen) {
      var i :| 0 <= i < |a| && Score(src, a[i], seen) == Some(c);
      assert a[i] in b;
      var j :| 0 <= j < |b| && b[j] == a[i];
      assert Score(src, b[j], seen) == Some(c);
    }
  }

  /** The whole chain: the manual selectors in configured order, then the automatic ones; it
      holds neither the source nor a duplicate. */
  lemma ChainIsGood(g: Registry, manual: map<string, seq<string>>, matchKeys: seq<string>, src: Source)
    requires GoodListing(g.listing)
    ensures var m := ManualFor(g, manual, matchKeys, src.key);
      GoodChain(m, src.key) && GoodChain(m + AutoChain(src, g.listing, Keys(m)), src.key)
  {
    hide Better, Sort, Candidates, ManualFor, QualifiedModel;
    var m := ManualFor(g, manual, matchKeys, src.key);
    ManualForGood(g, manual, matchKeys, src.key);
    var cs := Candidates(src, g.listing, Keys(m));
    CandidatesDistinct(src, g.listing, Keys(m));
    BetterOrders(cs);
    SortSorts(Better, cs);
    SortKeeps(Better, cs);
    AutoPartGood(m, cs, src.key);
  }

  lemma AutoPartGood(m: seq<ModelSelector>, cs: seq<Scored>, sourceKey: string)
    requires GoodChain(m, sourceKey) && Ordering(Better) && SortedBy(Better, Sort(Better, cs))
    requires forall c :: c in Sort(Better, cs) <==> c in cs
    requires DistinctKeys(cs)
    requires forall c :: c in cs ==> c.key == QualifiedModel(c.selector) && c.key != sourceKey && c.key !in Keys(m)
    ensures GoodChain(m + Selectors(FirstFive(Sort(Better, cs))), sourceKey)
  {
    hide Better, Sort, QualifiedModel, Selectors;
    var best := FirstFive(Sort(Better, cs));
    assert forall i :: 0 <= i < |best| ==> best[i] == Sort(Better, cs)[i] && best[i] in cs;
    var auto := Selectors(best);
    forall i, j | 0 <= i < j < |auto| ensures QualifiedModel(auto[i]) != QualifiedModel(auto[j]) {
      SameKeySame(cs, best[i], best[j]);
      assert Better(best[i], best[j]);
    }
    assert forall i :: 0 <= i < |auto| ==> auto[i] == best[i].selector && QualifiedModel(auto[i]) !in Keys(m);
    ChainsJoin(m, auto, sourceKey);
  }

  lemma ChainsJoin(a: seq<ModelSelector>, b: seq<ModelSelector>, sourceKey: string)
    requires GoodChain(a, sourceKey) && GoodChain(b, sourceKey)
    requires forall i :: 0 <= i < |b| ==> QualifiedModel(b[i]) !in Keys(a)
    ensures GoodChain(a + b, sourceKey)
  {
    hide QualifiedModel;
    assert forall i :: 0 <= i < |a| ==> QualifiedModel(a[i]) in Keys(a);
  }

  lemma SameKeySame(cs: seq<Scored>, a: Scored, b: Scored)
    requires DistinctKeys(cs) && a in cs && b in cs
    ensures a.key == b.key ==> a == b
  {
  }

  // Resolving a request

  /** The first of the request's names that the registry knows. */
  function SourceModelInfo(g: Registry, keys: seq<string>): Option<ModelInfo> {
    if keys == [] then None
    else
      var k := Trim(keys[0]);
      if k != "" && g.getModel(k).Some? then g.getModel(k) else SourceModelInfo(g, keys[1..])
  }

  function SourceNames(r: Resolution): seq<string> {
    [QualifiedModel(r.resolved), r.resolved.model, r.requestedQualified, r.requestedModel]
  }

  /** The mode set for the first match key that has one, or the default. */
  function ModeFor(overrides: map<string, Mode>, keys: seq<string>, default: Mode): Mode {
    if keys == [] then default
    else if keys[0] in overrides && overrides[keys[0]] != Unset then overrides[keys[0]]
    else ModeFor(overrides, keys[1..], default)
  }

  function FirstUsable(rankings: map<string, Ranking>, names: seq<string>): Option<(string, Ranking)> {
    if names == [] then None
    else if RankingByName(rankings, names[0]).Some? then Some((names[0], rankings[names[0]]))
    else FirstUsable(rankings, names[1..])
  }

  /** A preferred ranking if one is usable, else the usable one with the least name. */
  ghost predicate IsPreferredRanking(rankings: map<string, Ranking>, r: Option<(string, Ranking)>) {
    var preferred := FirstUsable(rankings, PREFERRED_RANKING_NAMES);
    if preferred.Some? then r == preferred
    else if r.Some? then
      && RankingByName(rankings, r.value.0) == Some(r.value.1)
      && forall name :: RankingByName(rankings, name).Some? ==> name == r.value.0 || Less(r.value.0, name)
    else forall name :: RankingByName(rankings, name).None?
  }

  method FindUsable(rankings: map<string, Ranking>, names: seq<string>) returns (r: Option<(string, Ranking)>)
    ensures r == FirstUsable(rankings, names)
  {
    for i := 0 to |names|
      invariant FirstUsable(rankings, names) == FirstUsable(rankings, names[i..])
    {
      assert names[i..][1..] == names[i + 1..];
      if RankingByName(rankings, names[i]).Some? {
        return Some((names[i], rankings[names[i]]));
      }
    }
    return None;
  }

  method PreferredRanking(rankings: map<string, Ranking>) returns (r: Option<(string, Ranking)>)
    ensures IsPreferredRanking(rankings, r)
  {
    hide FirstUsable;
    r := FindUsable(rankings, PREFERRED_RANKING_NAMES);
    if r.Some? {
      return;
    }
    var keys := SortedKeys.Collect(rankings);
    for i := 0 to |keys|
      invariant forall j :: 0 <= j < i ==> RankingByName(rankings, keys[j]).None?
    {
      if RankingByName(rankings, keys[i]).Some? {
        forall name | RankingByName(rankings, name).Some? ensures name == keys[i] || Less(keys[i], name) {
          var j :| 0 <= j < |keys| && keys[j] == name;
        }
        return Some((keys[i], rankings[keys[i]]));
      }
    }
    assert forall name :: RankingByName(rankings, name).Some? ==> name in keys;
    return None;
  }

  function RequiredCategory(op: Operation): string {
    match op
    case ChatCompletions => "text_generation"
    case Responses => "text_generation"
    case Embeddings => "embedding"
    case OtherOperation => ""
  }

  /** The automatic part of a chain, behind the selectors already seen: that for the preferred
      ranking of a source with metadata. */
  ghost predicate IsAutoPart(listing: seq<Listed>, source: Option<ModelInfo>, sourceKey: string, category: string,
                             seen: set<string>, auto: seq<ModelSelector>)
  {
    if source.None? || source.value.model.metadata.None? then auto == []
    else
      var meta := source.value.model.metadata.value;
      exists p :: IsPreferredRanking(meta.rankings, p) && auto ==
        if p.None? then []
        else AutoChain(Source(source.value.model, meta, sourceKey, category, p.value.0, p.value.1), listing, seen)
  }

  lemma PreferredIsUnique(rankings: map<string, Ranking>, p: Option<(string, Ranking)>, r: Option<(string, Ranking)>)
    requires IsPreferredRanking(rankings, p) && IsPreferredRanking(rankings, r)
    ensures p == r
  {
    hide FirstUsable;
    if FirstUsable(rankings, PREFERRED_RANKING_NAMES).None? && p.Some? && r.Some? && p.value.0 != r.value.0 {
      LessTransitive(p.value.0, r.value.0, p.value.0);
      LessIrreflexive(p.value.0);
    }
  }

  lemma AutoPartIgnoresOrder(a: seq<Listed>, b: seq<Listed>, source: Option<ModelInfo>, sourceKey: string,
                             category: string,
                             seen: set<string>, x: seq<ModelSelector>, y: seq<ModelSelector>)
    requires GoodListing(a) && GoodListing(b) && forall c :: c in a <==> c in b
    requires IsAutoPart(a, source, sourceKey, category, seen, x) && IsAutoPart(b, source, sourceKey, category, seen, y)
    ensures x == y
  {
    if source.Some? && source.value.model.metadata.Some? {
      hide AutoChain, GoodListing, IsPreferredRanking;
      var meta := source.value.model.metadata.value;
      var p :| IsPreferredRanking(meta.rankings, p) && x ==
        if p.None? then []
        else AutoChain(Source(source.value.model, meta, sourceKey, category, p.value.0, p.value.1), a, seen);
      var r :| IsPreferredRanking(meta.rankings, r) && y ==
        if r.None? then []
        else AutoChain(Source(source.value.model, meta, sourceKey, category, r.value.0, r.value.1), b, seen);
      PreferredIsUnique(meta.rankings, p, r);
      if p.Some? {
        AutoIgnoresListingOrder(Source(source.value.model, meta, sourceKey, category, p.value.0, p.value.1), a, b,
            seen);
      }
    }
  }

  lemma {:induction false} SameManualChain(g: Registry, h: Registry, models: seq<string>, sourceKey: string)
    requires g.getModel == h.getModel
    ensures ManualChain(g, models, sourceKey) == ManualChain(h, models, sourceKey)
  {
    if models != [] {
      hide Keys, QualifiedModel, Trim;
      SameManualChain(g, h, models[..|models| - 1], sourceKey);
    }
  }

  lemma {:induction false} SameManual(g: Registry, h: Registry, manual: map<string, seq<string>>,
      matchKeys: seq<string>, sourceKey: string)
    requires g.getModel == h.getModel
    ensures ManualFor(g, manual, matchKeys, sourceKey) == ManualFor(h, manual, matchKeys, sourceKey)
  {
    if matchKeys != [] {
      if matchKeys[0] in manual {
        SameManualChain(g, h, manual[matchKeys[0]], sourceKey);
      } else {
        SameManual(g, h, manual, matchKeys[1..], sourceKey);
      }
    }
  }

  lemma {:induction false} SameSource(g: Registry, h: Registry, keys: seq<string>)
    requires g.getModel == h.getModel
    ensures SourceModelInfo(g, keys) == SourceModelInfo(h, keys)
  {
    if keys != [] {
      SameSource(g, h, keys[1..]);
    }
  }

  /** The whole chain does not depend on the order of the registry's listing. */
  lemma ChainIgnoresListingOrder(a: Resolver, b: Resolver, r: Resolution, op: Operation,
                                 x: seq<ModelSelector>, y: seq<ModelSelector>)
    requires a.defaultMode == b.defaultMode && a.manual == b.manual && a.overrides == b.overrides
    requires a.registry.getModel == b.registry.getModel
    requires GoodListing(a.registry.listing) && GoodListing(b.registry.listing)
    requires forall c :: c in a.registry.listing <==> c in b.registry.listing
    requires a.Answers(r, op, x) && b.Answers(r, op, y)
    ensures x == y
  {
    hide GoodListing, QualifiedModel, IsAutoPart, ManualFor, SourceModelInfo, FirstUses;
    SameSource(a.registry, b.registry, SourceNames(r));
    var source := SourceModelInfo(a.registry, SourceNames(r));
    var keys := FirstUses(RawMatchKeys(r, source));
    SameManual(a.registry, b.registry, a.manual, keys, SourceKey(r, source));
    var start := ManualFor(a.registry, a.manual, keys, SourceKey(r, source));
    if op != Embeddings && ModeFor(a.overrides, keys, a.defaultMode) == Auto {
      AutoPartIgnoresOrder(a.registry.listing, b.registry.listing, source, SourceKey(r, source), RequiredCategory(op),
                           Keys(start), x[|start|..], y[|start|..]);
      assert x == start + x[|start|..] && y == start + y[|start|..];
    }
  }

  /** What a request's automatic fallbacks are, in terms of the registry: the nearest usable rows
      for the source's preferred ranking, of text models for chat and responses. */
  lemma ResolvedNearestFirst(resolver: Resolver, r: Resolution, op: Operation, chain: seq<ModelSelector>)
    returns (src: Source, rows: seq<Listed>)
    requires GoodListing(resolver.registry.listing) && resolver.Answers(r, op, chain)
    requires |chain| > |resolver.ManualPart(r)|
    ensures
      var g := resolver.registry;
      var source := SourceModelInfo(g, SourceNames(r));
      && source.Some? && src.model == source.value.model && src.model.metadata == Some(src.meta)
      && src.key == SourceKey(r, source)
      && IsPreferredRanking(src.meta.rankings, Some((src.rankingName, src.ranking)))
      && NearestFirst(src, g.listing, Keys(resolver.ManualPart(r)), rows)
      && |chain| == |resolver.ManualPart(r)| + |rows|
      && (forall i :: 0 <= i < |rows| ==>
            chain[|resolver.ManualPart(r)| + i] == ModelSelector(rows[i].model.id, rows[i].providerName))
      && (op == ChatCompletions || op == Responses ==>
            forall row :: row in rows ==>
              row.model.metadata.Some? && "text_generation" in row.model.metadata.value.categories)
  {
    hide GoodListing, ManualFor, AutoChain, NearestFirst, FirstUses, SourceModelInfo, IsPreferredRanking, Keys;
    var start := resolver.ManualPart(r);
    var source := SourceModelInfo(resolver.registry, SourceNames(r));
    var meta := source.value.model.metadata.value;
    var p :| IsPreferredRanking(meta.rankings, p) && chain[|start|..] ==
      if p.None? then []
      else
        AutoChain(Source(source.value.model, meta, SourceKey(r, source), RequiredCategory(op), p.value.0, p.value.1),
                  resolver.registry.listing, Keys(start));
    src := Source(source.value.model, meta, SourceKey(r, source), RequiredCategory(op), p.value.0, p.value.1);
    rows := AutoNearestFirst(src, resolver.registry.listing, Keys(start));
    if op == ChatCompletions || op == Responses {
      RowsOfCategory(src, resolver.registry.listing, Keys(start), rows);
    }
  }

  lemma RowsOfCategory(src: Source, listing: seq<Listed>, seen: set<string>, rows: seq<Listed>)
    requires NearestFirst(src, listing, seen, rows) && src.category == "text_generation"
    ensures forall row :: row in rows ==>
      row.model.metadata.Some? && "text_generation" in row.model.metadata.value.categories
  {
    hide AsNear, Trim;
    forall row | row in rows
      ensures row.model.metadata.Some? && "text_generation" in row.model.metadata.value.categories
    {
      var i :| 0 <= i < |rows| && rows[i] == row;
      assert Usable(src, rows[i], seen);
    }
  }

  // What decides, in terms of the request's names

  /** `name` is the request's name of a given precedence: its own with an explicit provider, the
      source's in the registry, the resolved one with its provider, then the remaining forms. */
  ghost predicate NamedAt(r: Resolution, source: Option<ModelInfo>, precedence: int, name: string) {
    && name != ""
    && match precedence
       case 1 => Trim(r.requestedHint) != "" && name == Trim(r.requestedQualified)
       case 2 => source.Some? && source.value.providerName != "" && source.value.model.id != ""
                 && name == Trim(source.value.providerName + "/" + source.value.model.id)
       case 3 => Trim(r.resolved.provider) != "" && name == Trim(QualifiedModel(r.resolved))
       case 4 => name == Trim(r.requestedModel)
       case 5 => name == Trim(r.resolved.model)
       case 6 => name == Trim(r.requestedQualified)
       case 7 => name == Trim(QualifiedModel(r.resolved))
       case _ => false
  }

  /** Of the names of which something holds, `name` has the first precedence. */
  ghost predicate NamedFirst(r: Resolution, source: Option<ModelInfo>, name: string, holds: string -> bool) {
    exists n :: 1 <= n <= 7 && NamedFirstAt(r, source, n, name, holds)
  }

  ghost predicate NamedFirstAt(r: Resolution, source: Option<ModelInfo>, n: int, name: string, holds: string -> bool) {
    && NamedAt(r, source, n, name) && holds(name)
    && forall m, other :: 1 <= m < n && NamedAt(r, source, m, other) ==> !holds(other)
  }

  /** `keys[i]` is the first of the keys of which something holds. */
  ghost predicate FirstHolds(keys: seq<string>, i: nat, holds: string -> bool) {
    i < |keys| && holds(keys[i]) && forall j :: 0 <= j < i ==> !holds(keys[j])
  }

  lemma {:induction false} FirstUseAt(keys: seq<string>, i: nat) returns (p: nat)
    requires i < |keys| && Trim(keys[i]) != ""
    ensures p < |FirstUses(keys)| && FirstUses(keys)[p] == Trim(keys[i])
    ensures forall q :: 0 <= q < p ==> exists j :: 0 <= j < i && FirstUses(keys)[q] == Trim(keys[j])
    decreases |keys|
  {
    hide Trim;
    var n := |keys| - 1;
    var front := FirstUses(keys[..n]);
    assert front <= FirstUses(keys);
    if i < n {
      p := FirstUseAt(keys[..n], i);
    } else if Trim(keys[n]) in front {
      p :| 0 <= p < |front| && front[p] == Trim(keys[n]);
      assert forall q :: 0 <= q < |front| ==> front[q] in front;
    } else {
      p := |front|;
      assert forall q :: 0 <= q < |front| ==> front[q] in front;
    }
  }

  lemma NamesNotEmpty(r: Resolution, source: Option<ModelInfo>, n: int, name: string)
    requires NamedAt(r, source, n, name)
    ensures name != ""
  {
  }

  /** The precedence is that of the raw match keys. */
  lemma NameAtKey(r: Resolution, source: Option<ModelInfo>, n: int, name: string) returns (i: nat)
    requires NamedAt(r, source, n, name)
    ensures var raw := RawMatchKeys(r, source);
      && i < |raw| && Trim(raw[i]) == name
      && forall j :: 0 <= j < i && Trim(raw[j]) != "" ==>
           exists m :: 1 <= m < n && NamedAt(r, source, m, Trim(raw[j]))
  {
    hide Trim;
    var raw := RawMatchKeys(r, source);
    var a := if Trim(r.requestedHint) != "" then 1 else 0;
    var b := a + if source.Some? && source.value.providerName != "" && source.value.model.id != "" then 1 else 0;
    var c := b + if Trim(r.resolved.provider) != "" then 1 else 0;
    i := if n == 1 then 0 else if n == 2 then a else if n == 3 then b else c + n - 4;
    forall j | 0 <= j < i && Trim(raw[j]) != "" ensures exists m :: 1 <= m < n && NamedAt(r, source, m, Trim(raw[j])) {
      var m := if j < a then 1 else if j < b then 2 else if j < c then 3 else j - c + 4;
      assert 1 <= m < n && NamedAt(r, source, m, Trim(raw[j]));
    }
  }

  lemma KeyIsNamed(r: Resolution, source: Option<ModelInfo>, name: string)
    requires name in FirstUses(RawMatchKeys(r, source))
    ensures exists n :: 1 <= n <= 7 && NamedAt(r, source, n, name)
  {
    hide Trim;
    var raw := RawMatchKeys(r, source);
    var j :| 0 <= j < |raw| && Trim(raw[j]) == name;
    var a := if Trim(r.requestedHint) != "" then 1 else 0;
    var b := a + if source.Some? && source.value.providerName != "" && source.value.model.id != "" then 1 else 0;
    var c := b + if Trim(r.resolved.provider) != "" then 1 else 0;
    var n := if j < a then 1 else if j < b then 2 else if j < c then 3 else j - c + 4;
    assert NamedAt(r, source, n, name);
  }

  /** The first name of which something holds is the first such match key. */
  lemma FirstNameIsFirstKey(r: Resolution, source: Option<ModelInfo>, name: string, holds: string -> bool)
    returns (p: nat)
    requires NamedFirst(r, source, name, holds)
    ensures FirstHolds(FirstUses(RawMatchKeys(r, source)), p, holds)
    ensures FirstUses(RawMatchKeys(r, source))[p] == name
  {
    hide Trim, NamedAt, FirstUses, RawMatchKeys;
    var n :| 1 <= n <= 7 && NamedFirstAt(r, source, n, name, holds);
    var raw := RawMatchKeys(r, source);
    var i := NameAtKey(r, source, n, name);
    NamesNotEmpty(r, source, n, name);
    p := FirstUseAt(raw, i);
    var keys := FirstUses(raw);
    forall q | 0 <= q < p ensures !holds(keys[q]) {
      var j :| 0 <= j < i && keys[q] == Trim(raw[j]);
      assert keys[q] in keys;
      var m :| 1 <= m < n && NamedAt(r, source, m, Trim(raw[j]));
    }
  }

  lemma {:induction false} ModeAtFirst(overrides: map<string, Mode>, keys: seq<string>, default: Mode, p: nat)
    requires FirstHolds(keys, p, k => k in overrides && overrides[k] != Unset)
    ensures ModeFor(overrides, keys, default) == overrides[keys[p]]
  {
    if p > 0 {
      assert forall j :: 0 <= j < |keys| - 1 ==> keys[1..][j] == keys[j + 1];
      ModeAtFirst(overrides, keys[1..], default, p - 1);
    }
  }

  lemma {:induction false} ModeByDefault(overrides: map<string, Mode>, keys: seq<string>, default: Mode)
    requires forall k :: k in keys && k in overrides ==> overrides[k] == Unset
    ensures ModeFor(overrides, keys, default) == default
  {
    if keys != [] {
      ModeByDefault(overrides, keys[1..], default);
    }
  }

  /** The mode is the one set for the name of first precedence that has one, else the default. */
  lemma ModeOfFirstName(r: Resolution, source: Option<ModelInfo>, overrides: map<string, Mode>, default: Mode,
                        name: string)
    ensures var mode := ModeFor(overrides, FirstUses(RawMatchKeys(r, source)), default);
      && (NamedFirst(r, source, name, k => k in overrides && overrides[k] != Unset) ==> mode == overrides[name])
      && ((forall n, k :: 1 <= n <= 7 && NamedAt(r, source, n, k) && k in overrides ==> overrides[k] == Unset) ==>
            mode == default)
  {
    hide Trim, NamedAt, NamedFirst, FirstUses, RawMatchKeys;
    var keys := FirstUses(RawMatchKeys(r, source));
    if NamedFirst(r, source, name, k => k in overrides && overrides[k] != Unset) {
      var p := FirstNameIsFirstKey(r, source, name, k => k in overrides && overrides[k] != Unset);
      ModeAtFirst(overrides, keys, default, p);
    }
    if forall n, k :: 1 <= n <= 7 && NamedAt(r, source, n, k) && k in overrides ==> overrides[k] == Unset {
      forall k | k in keys && k in overrides ensures overrides[k] == Unset {
        KeyIsNamed(r, source, k);
      }
      ModeByDefault(overrides, keys, default);
    }
  }

  lemma {:induction false} ManualAtFirst(g: Registry, manual: map<string, seq<string>>, keys: seq<string>,
                                         sourceKey: string, p: nat)
    requires FirstHolds(keys, p, k => k in manual)
    ensures ManualFor(g, manual, keys, sourceKey) == ManualChain(g, manual[keys[p]], sourceKey)
  {
    if p > 0 {
      assert forall j :: 0 <= j < |keys| - 1 ==> keys[1..][j] == keys[j + 1];
      ManualAtFirst(g, manual, keys[1..], sourceKey, p - 1);
    }
  }

  lemma {:induction false} NoManual(g: Registry, manual: map<string, seq<string>>, keys: seq<string>, sourceKey: string)
    requires forall k :: k in keys ==> k !in manual
    ensures ManualFor(g, manual, keys, sourceKey) == []
  {
    if keys != [] {
      NoManual(g, manual, keys[1..], sourceKey);
    }
  }

  /** The manual part is what the list of the name of first precedence that has one resolves to,
      even when that is nothing. */
  lemma ManualOfFirstName(r: Resolution, source: Option<ModelInfo>, g: Registry, manual: map<string, seq<string>>,
                          sourceKey: string, name: string)
    ensures var start := ManualFor(g, manual, FirstUses(RawMatchKeys(r, source)), sourceKey);
      && (NamedFirst(r, source, name, k => k in manual) ==> start == ManualChain(g, manual[name], sourceKey))
      && ((forall n, k :: 1 <= n <= 7 && NamedAt(r, source, n, k) ==> k !in manual) ==> start == [])
  {
    hide Trim, NamedAt, NamedFirst, FirstUses, RawMatchKeys, ManualChain;
    var keys := FirstUses(RawMatchKeys(r, source));
    if NamedFirst(r, source, name, k => k in manual) {
      var p := FirstNameIsFirstKey(r, source, name, k => k in manual);
      ManualAtFirst(g, manual, keys, sourceKey, p);
    }
    if forall n, k :: 1 <= n <= 7 && NamedAt(r, source, n, k) ==> k !in manual {
      forall k | k in keys ensures k !in manual {
        KeyIsNamed(r, source, k);
      }
      NoManual(g, manual, keys, sourceKey);
    }
  }

  /** The registry's model for a configured one. */
  ghost predicate Resolves(g: Registry, model: string, s: ModelSelector) {
    && Trim(model) != "" && g.getModel(Trim(model)).Some?
    && s.model == g.getModel(Trim(model)).value.model.id && s.provider == g.getModel(Trim(model)).value.providerName
  }

  /** A manual chain holds the registry's models for the configured ones, all but the source, in
      configured order: what a shorter list gives comes first. */
  lemma {:induction false} ManualFromList(g: Registry, models: seq<string>, sourceKey: string)
    ensures var chain := ManualChain(g, models, sourceKey);
      && (forall s :: s in chain ==> exists i :: 0 <= i < |models| && Resolves(g, models[i], s))
      && (forall i, s :: 0 <= i < |models| && Resolves(g, models[i], s) && QualifiedModel(s) != sourceKey ==>
            QualifiedModel(s) in Keys(chain))
      && (forall n :: 0 <= n <= |models| ==> ManualChain(g, models[..n], sourceKey) <= chain)
  {
    hide Trim, QualifiedModel;
    assert models[..|models|] == models;
    if models != [] {
      var n := |models| - 1;
      var front := models[..n];
      ManualFromList(g, front, sourceKey);
      var before, chain := ManualChain(g, front, sourceKey), ManualChain(g, models, sourceKey);
      assert before <= chain && Keys(before) <= Keys(chain);
      forall k | 0 <= k <= n ensures ManualChain(g, models[..k], sourceKey) <= chain {
        assert front[..k] == models[..k];
      }
      forall s | s in chain ensures exists i :: 0 <= i < |models| && Resolves(g, models[i], s) {
        if s in before {
          var i :| 0 <= i < |front| && Resolves(g, front[i], s);
          assert Resolves(g, models[i], s);
        } else {
          assert Resolves(g, models[n], s);
        }
      }
      forall i, s | 0 <= i < |models| && Resolves(g, models[i], s) && QualifiedModel(s) != sourceKey
        ensures QualifiedModel(s) in Keys(chain)
      {
        if i < n {
          assert Resolves(g, front[i], s);
        } else if QualifiedModel(s) !in Keys(before) {
          assert chain == before + [s];
          KeysMore(before, s);
        }
      }
    }
  }

  ghost predicate Knows(g: Registry, name: string) { Trim(name) != "" && g.getModel(Trim(name)).Some? }

  /** The source is the registry's model for the resolved name with its provider, else the
      resolved model, else the requested name with its provider, else the requested model. */
  lemma SourceIsFirstKnown(g: Registry, r: Resolution)
    ensures var source := SourceModelInfo(g, SourceNames(r));
      var full := if r.resolved.provider == "" then r.resolved.model else r.resolved.provider + "/" + r.resolved.model;
      if Knows(g, full) then source == g.getModel(Trim(full))
      else if Knows(g, r.resolved.model) then source == g.getModel(Trim(r.resolved.model))
      else if Knows(g, r.requestedQualified) then source == g.getModel(Trim(r.requestedQualified))
      else if Knows(g, r.requestedModel) then source == g.getModel(Trim(r.requestedModel))
      else source == None
  {
    hide Trim, SourceModelInfo, Knows;
    var full := QualifiedModel(r.resolved);
    SourceStep(g, full, [r.resolved.model, r.requestedQualified, r.requestedModel]);
    SourceStep(g, r.resolved.model, [r.requestedQualified, r.requestedModel]);
    SourceStep(g, r.requestedQualified, [r.requestedModel]);
    SourceStep(g, r.requestedModel, []);
    assert SourceNames(r) == [full] + [r.resolved.model, r.requestedQualified, r.requestedModel];
    assert [r.resolved.model, r.requestedQualified, r.requestedModel]
        == [r.resolved.model] + [r.requestedQualified, r.requestedModel];
    assert [r.requestedQualified, r.requestedModel] == [r.requestedQualified] + [r.requestedModel];
    assert [r.requestedModel] == [r.requestedModel] + [];
  }

  lemma SourceStep(g: Registry, name: string, rest: seq<string>)
    ensures SourceModelInfo(g, [name] + rest)
         == if Knows(g, name) then g.getModel(Trim(name)) else SourceModelInfo(g, rest)
    ensures SourceModelInfo(g, []) == None
  {
    assert ([name] + rest)[1..] == rest;
  }

  /** A chain without the source's key does not hold the source's own model. */
  lemma NeverTheSource(r: Resolution, source: Option<ModelInfo>, chain: seq<ModelSelector>, s: ModelSelector)
    requires GoodChain(chain, SourceKey(r, source)) && s in chain
    ensures source.Some? && source.value.providerName != "" && source.value.model.id != "" ==>
      s != ModelSelector(source.value.model.id, source.value.providerName)
    ensures source.None? ==> QualifiedModel(s) != Trim(QualifiedModel(r.resolved))
  {
    hide Trim;
  }

  /** The chatbot arena's overall ranking is preferred, then those for coding, mathematics,
      creative writing and vision. */
  lemma ArenaFirst(rankings: map<string, Ranking>, r: Option<(string, Ranking)>, i: nat)
    requires IsPreferredRanking(rankings, r)
    ensures
      var arena := ["chatbot_arena", "chatbot_arena_coding", "chatbot_arena_math", "chatbot_arena_creative_writing",
                    "chatbot_arena_vision"];
      i < 5 && IsUsable(rankings, arena[i]) && (forall j :: 0 <= j < i ==> !IsUsable(rankings, arena[j])) ==>
        r == Some((arena[i], rankings[arena[i]]))
    ensures r.Some? ==> IsUsable(rankings, r.value.0) && r.value.1 == rankings[r.value.0]
    ensures r.None? ==> forall name :: !IsUsable(rankings, name)
  {
    FirstUsableAt(rankings, PREFERRED_RANKING_NAMES, i);
    assert forall name :: IsUsable(rankings, name) <==> RankingByName(rankings, name).Some?;
  }

  ghost predicate IsUsable(rankings: map<string, Ranking>, name: string) {
    name in rankings && (rankings[name].elo.Some? || rankings[name].rank.Some?)
  }

  lemma {:induction false} FirstUsableAt(rankings: map<string, Ranking>, names: seq<string>, i: nat)
    ensures
      i < |names| && IsUsable(rankings, names[i]) && (forall j :: 0 <= j < i ==> !IsUsable(rankings, names[j])) ==>
        FirstUsable(rankings, names) == Some((names[i], rankings[names[i]]))
    ensures var r := FirstUsable(rankings, names);
      r.Some? ==> IsUsable(rankings, r.value.0) && r.value.1 == rankings[r.value.0]
  {
    if names != [] {
      FirstUsableAt(rankings, names[1..], if i > 0 then i - 1 else 0);
    }
  }

  class Resolver {
    const defaultMode: Mode
    const manual: map<string, seq<string>>
    const overrides: map<string, Mode>
    const registry: Registry

    constructor (defaultMode: Mode, manual: map<string, seq<string>>, overrides: map<string, Mode>, registry: Registry)
      ensures this.defaultMode == defaultMode && this.manual == manual && this.overrides == overrides &&
          this.registry == registry
    {
      this.defaultMode, this.manual, this.overrides, this.registry := defaultMode, manual, overrides, registry;
    }

    /** The manual list of the first match key that has one. */
    function ManualPart(r: Resolution): seq<ModelSelector> {
      var source := SourceModelInfo(registry, SourceNames(r));
      ManualFor(registry, manual, FirstUses(RawMatchKeys(r, source)), SourceKey(r, source))
    }

    /** Embeddings and mode off have no fallbacks.  Otherwise the chain starts with the manual
        list of the first match key that has one; in mode auto the best automatic candidates for
        the source's preferred ranking follow, and in no other mode does anything follow. */
    ghost predicate Answers(r: Resolution, op: Operation, chain: seq<ModelSelector>) {
      var source := SourceModelInfo(registry, SourceNames(r));
      var keys := FirstUses(RawMatchKeys(r, source));
      var mode := ModeFor(overrides, keys, defaultMode);
      var start := ManualPart(r);
      if op == Embeddings || mode == Off then chain == []
      else if mode != Auto then chain == start
      else
        && start <= chain
        && IsAutoPart(registry.listing, source, SourceKey(r, source), RequiredCategory(op), Keys(start),
            chain[|start|..])
    }

    /** The chain holds neither the source nor a duplicate when the registry lists each model
        once under its qualified name. */
    method ResolveFallbacks(r: Resolution, op: Operation) returns (chain: seq<ModelSelector>)
      ensures Answers(r, op, chain)
      ensures op == Embeddings ==> chain == []
      ensures |chain| <= |ManualPart(r)| + MAX_AUTO_FALLBACK_CANDIDATES
      ensures var key := SourceKey(r, SourceModelInfo(registry, SourceNames(r)));
        GoodChain(ManualPart(r), key) && (GoodListing(registry.listing) ==> GoodChain(chain, key))
    {
      hide QualifiedModel, Trim, FirstUses, GoodListing, ManualFor;
      ManualForGood(registry, manual, FirstUses(RawMatchKeys(r, SourceModelInfo(registry, SourceNames(r)))),
                    SourceKey(r, SourceModelInfo(registry, SourceNames(r))));
      var category := RequiredCategory(op);
      if category == "embedding" {
        return [];
      }
      var source := SourceModelInfo(registry, SourceNames(r));
      var keys := MatchKeys(r, source);
      var mode := ModeFor(overrides, keys, defaultMode);
      if mode == Off {
        return [];
      }
      var sourceKey := SourceKey(r, source);
      var seen;
      chain, seen := ManualSelectorsFor(registry, manual, keys, sourceKey);
      if mode != Auto {
        return;
      }
      if source.None? || source.value.model.metadata.None? {
        assert chain[|chain|..] == [];
        return;
      }
      var meta := source.value.model.metadata.value;
      var preferred := PreferredRanking(meta.rankings);
      if preferred.None? {
        assert chain[|chain|..] == [];
        return;
      }
      var src := Source(source.value.model, meta, sourceKey, category, preferred.value.0, preferred.value.1);
      if GoodListing(registry.listing) {
        ChainIsGood(registry, manual, keys, src);
      }
      var more := AutoSelectorsFor(src, registry.listing, seen);
      assert (chain + more)[|chain|..] == more;
      chain := chain + more;
    }
  }
}
