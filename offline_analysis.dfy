/** The offline natural-language fund filter. A query is lower-cased and
    trimmed, tested against keyword categories in a fixed order, and the
    first category that matches decides how the fund list is filtered,
    ranked or cut; a query no category claims becomes a keyword search. */
module OfflineAnalysis {
  import opened Wrappers
  import opened Seqs
  import opened Sorting
  import opened Text
  import opened Schema

  /** The funds chosen, why, and the criteria shown as tags. */
  datatype AnalysisResult = AnalysisResult(filteredFunds: seq<Fund>, explanation: string, criteria: seq<string>)

  /** The categories, in the order the analyzer tries them. */
  datatype Category = Risk | Return | Region | Fee | Tech | Bond | MinInvestment | Esg | Keyword

  function Rank(c: Category): nat
  {
    match c
    case Risk => 0
    case Return => 1
    case Region => 2
    case Fee => 3
    case Tech => 4
    case Bond => 5
    case MinInvestment => 6
    case Esg => 7
    case Keyword => 8
  }

  const RiskKeywords: seq<string> := ["risk", "safe", "conservative", "stable", "volatile", "aggressive"]
  const ReturnKeywords: seq<string> := ["return", "performance", "gain", "growth", "profit"]
  const RegionKeywords: seq<string> := ["us", "usa", "american", "offshore", "international", "european", "global"]
  const FeeKeywords: seq<string> := ["fee", "fees", "cost", "expense", "cheap", "low cost"]
  const TechQueryKeywords: seq<string> := ["tech", "technology", "innovation", "growth", "emerging"]
  const BondQueryKeywords: seq<string> := ["bond", "bonds", "fixed income", "treasury", "municipal"]
  const MinInvestKeywords: seq<string> := ["minimum", "min investment", "low minimum", "affordable"]
  const EsgKeywords: seq<string> := ["esg", "sustainable", "environmental", "social", "governance", "ethical"]

  /** The words a fund's own text is searched for once a category is chosen. */
  const TechKeywords: seq<string> := ["tech", "technology", "innovation", "growth", "emerging", "digital", "software"]
  const BondKeywords: seq<string> := ["bond", "treasury", "municipal", "fixed", "income"]

  const LowRiskWords: seq<string> := ["low", "safe", "conservative", "stable"]
  const HighRiskWords: seq<string> := ["high", "aggressive", "volatile"]
  const TopWords: seq<string> := ["high", "best", "top"]
  const UsWords: seq<string> := ["us", "usa", "american"]

  /** The explanations shown with each result. */
  const LowRiskExplanation: string := "Selected low-risk funds for conservative investors seeking stability and capital preservation."
  const HighRiskExplanation: string := "Selected high-risk funds for aggressive investors seeking maximum growth potential."
  const MediumRiskExplanation: string := "Selected medium-risk funds offering balanced growth and stability."
  const TopReturnExplanation: string := "Selected top-performing funds with the highest 1-year returns for growth-focused investors."
  const PositiveReturnExplanation: string := "Selected funds with positive 1-year returns."
  const UsExplanation: string := "Selected US-based funds investing in American markets and companies."
  const OffshoreExplanation: string := "Selected offshore/international funds for global diversification."
  const FeeExplanation: string := "Selected funds with the lowest expense ratios to minimize investment costs."
  const TechExplanation: string := "Selected technology and growth-focused funds investing in innovative companies."
  const BondExplanation: string := "Selected bond and fixed-income funds for stable income generation."
  const EsgExplanation: string := "Selected ESG and sustainable funds focusing on environmental, social, and governance criteria."
  const MatchExplanation: string := "Found funds matching your search criteria."
  const PopularExplanation: string := "No exact matches found. Showing popular funds instead."

  /** The amount a minimum-investment query without a number asks for. */
  const DefaultMinInvestment: nat := 5000

  /** The number of funds the popular-funds fallback shows. */
  const PopularCount: nat := 6

  function Min(a: int, b: int): int { if a <= b then a else b }
  function Max(a: int, b: int): int { if a >= b then a else b }

  /** `query.toLowerCase().trim()`. */
  function Normalize(query: string): string
  {
    Trim(ToLower(query))
  }

  /** Normalizing a normalized query changes nothing. */
  lemma NormalizeIdempotent(query: string)
    ensures Normalize(Normalize(query)) == Normalize(query)
  {
    var lower := ToLower(query);
    TrimKeepsLower(lower);
    ToLowerFixed(Trim(lower));
    TrimIsInfix(lower);
  }

  predicate MatchesRiskQuery(q: string) { ContainsAny(q, RiskKeywords) }
  predicate MatchesReturnQuery(q: string) { ContainsAny(q, ReturnKeywords) }
  predicate MatchesRegionQuery(q: string) { ContainsAny(q, RegionKeywords) }
  predicate MatchesFeeQuery(q: string) { ContainsAny(q, FeeKeywords) }
  predicate MatchesTechQuery(q: string) { ContainsAny(q, TechQueryKeywords) }
  predicate MatchesBondQuery(q: string) { ContainsAny(q, BondQueryKeywords) }

  /** A minimum-investment keyword, or anything `/\$?\d+/` finds: a digit. */
  predicate MatchesMinInvestmentQuery(q: string) { ContainsAny(q, MinInvestKeywords) || HasDigit(q) }

  predicate MatchesEsgQuery(q: string) { ContainsAny(q, EsgKeywords) }

  /** Whether category `c`'s matcher accepts `q`; keyword search takes
      anything. */
  predicate Matches(c: Category, q: string)
  {
    match c
    case Risk => MatchesRiskQuery(q)
    case Return => MatchesReturnQuery(q)
    case Region => MatchesRegionQuery(q)
    case Fee => MatchesFeeQuery(q)
    case Tech => MatchesTechQuery(q)
    case Bond => MatchesBondQuery(q)
    case MinInvestment => MatchesMinInvestmentQuery(q)
    case Esg => MatchesEsgQuery(q)
    case Keyword => true
  }

  /** The category `analyze` dispatches on: the first, in order, whose
      matcher accepts the query. */
  function Classify(q: string): (c: Category)
    ensures Matches(c, q)
    ensures forall d :: Rank(d) < Rank(c) ==> !Matches(d, q)
  {
    if MatchesRiskQuery(q) then Risk
    else if MatchesReturnQuery(q) then Return
    else if MatchesRegionQuery(q) then Region
    else if MatchesFeeQuery(q) then Fee
    else if MatchesTechQuery(q) then Tech
    else if MatchesBondQuery(q) then Bond
    else if MatchesMinInvestmentQuery(q) then MinInvestment
    else if MatchesEsgQuery(q) then Esg
    else Keyword
  }

  // ---------------------------------------------------------------- risk

  /** The risk level a risk query asks for: low words win over high words,
      and a query with neither asks for medium risk. */
  function TargetRisk(q: string): (level: string)
    ensures level == "Low" <==> ContainsAny(q, LowRiskWords)
    ensures level == "High" <==> !ContainsAny(q, LowRiskWords) && ContainsAny(q, HighRiskWords)
    ensures level == "Medium" <==> !ContainsAny(q, LowRiskWords) && !ContainsAny(q, HighRiskWords)
  {
    if ContainsAny(q, LowRiskWords) then "Low"
    else if ContainsAny(q, HighRiskWords) then "High"
    else "Medium"
  }

  function RiskExplanation(level: string): string
  {
    if level == "Low" then LowRiskExplanation
    else if level == "High" then HighRiskExplanation
    else MediumRiskExplanation
  }

  function RiskIs(level: string): Fund -> bool
  {
    (f: Fund) => f.riskLevel == level
  }

  /** Exactly the funds of the target risk level, in catalog order. */
  function FilterByRisk(funds: seq<Fund>, q: string): (r: AnalysisResult)
    ensures Selects(r.filteredFunds, funds, RiskIs(TargetRisk(q)))
    ensures multiset(r.filteredFunds) <= multiset(funds)
    ensures forall f :: f in r.filteredFunds <==> f in funds && f.riskLevel == TargetRisk(q)
    ensures r.criteria == ["Risk Level: " + TargetRisk(q)]
  {
    var level := TargetRisk(q);
    FilterSelects(funds, RiskIs(level));
    AnalysisResult(Filter(funds, RiskIs(level)), RiskExplanation(level), ["Risk Level: " + level])
  }

  // -------------------------------------------------------------- return

  /** The ascending key of `(a, b) => b.returnValue - a.returnValue`:
      highest return first. */
  function ReturnKey(f: Fund): real { -f.yearReturn }

  function PositiveReturn(f: Fund): bool { f.yearReturn > 0.0 }

  /** `Math.max(1, Math.ceil(n * 0.3))`, cut at `n` by `slice`. */
  function TopCount(n: nat): (k: nat)
    ensures k <= n
    ensures n > 0 ==> k >= 1
    ensures 3 * n <= 10 * k
    ensures k > 1 ==> 10 * (k - 1) < 3 * n
  {
    Min(n, Max(1, (3 * n + 9) / 10))
  }

  /** The top ⌈30%⌉ (at least one) of the funds by descending return:
      no fund left out has a higher return than one taken. */
  function TopReturns(funds: seq<Fund>): (r: seq<Fund>)
    ensures |r| == TopCount(|funds|)
    ensures SmallestBy(r, funds, ReturnKey)
    ensures multiset(r) <= multiset(funds)
  {
    var ranked := SortBy(funds, ReturnKey);
    var k := TopCount(|funds|);
    PrefixDominates(funds, ranked, ReturnKey, k);
    ranked[..k]
  }

  /** The funds with a positive return, by descending return. */
  function PositiveReturns(funds: seq<Fund>): (r: seq<Fund>)
    ensures SortedBy(r, ReturnKey)
    ensures forall f :: multiset(r)[f] == if f.yearReturn > 0.0 then multiset(funds)[f] else 0
    ensures multiset(r) <= multiset(funds)
  {
    var ranked := SortBy(funds, ReturnKey);
    FilterSorted(ranked, PositiveReturn, ReturnKey);
    FilterSelects(ranked, PositiveReturn);
    Filter(ranked, PositiveReturn)
  }

  /** A "high/best/top" return query takes the top returns, any other
      return query every fund with a positive return. */
  function FilterByReturn(funds: seq<Fund>, q: string): (r: AnalysisResult)
    ensures ContainsAny(q, TopWords) ==> r.filteredFunds == TopReturns(funds)
    ensures !ContainsAny(q, TopWords) ==> r.filteredFunds == PositiveReturns(funds)
    ensures multiset(r.filteredFunds) <= multiset(funds)
    ensures r.criteria == ["High Returns", "1-Year Performance"]
  {
    if ContainsAny(q, TopWords) then
      AnalysisResult(TopReturns(funds),
        TopReturnExplanation,
        ["High Returns", "1-Year Performance"])
    else
      AnalysisResult(PositiveReturns(funds),
        PositiveReturnExplanation,
        ["High Returns", "1-Year Performance"])
  }

  // -------------------------------------------------------------- region

  /** `US` when the query names the US, otherwise `Offshore`. */
  function TargetRegion(q: string): (region: string)
    ensures region == "US" <==> ContainsAny(q, UsWords)
    ensures region == "Offshore" <==> !ContainsAny(q, UsWords)
  {
    if ContainsAny(q, UsWords) then "US" else "Offshore"
  }

  function RegionIs(region: string): Fund -> bool
  {
    (f: Fund) => f.region == Some(region)
  }

  /** Exactly the funds of the target region, in catalog order. */
  function FilterByRegion(funds: seq<Fund>, q: string): (r: AnalysisResult)
    ensures Selects(r.filteredFunds, funds, RegionIs(TargetRegion(q)))
    ensures multiset(r.filteredFunds) <= multiset(funds)
    ensures forall f :: f in r.filteredFunds <==> f in funds && f.region == Some(TargetRegion(q))
    ensures r.criteria == ["Region: " + TargetRegion(q)]
  {
    var region := TargetRegion(q);
    FilterSelects(funds, RegionIs(region));
    AnalysisResult(Filter(funds, RegionIs(region)),
      if region == "US" then UsExplanation
      else OffshoreExplanation,
      ["Region: " + region])
  }

  /** Funds created without a region, as every fund the store seeds is,
      match neither target: on such a catalog every region query returns
      no fund. */
  lemma RegionlessCatalogMatchesNothing(funds: seq<Fund>, q: string)
    requires forall f :: f in funds ==> f.region.None?
    ensures FilterByRegion(funds, q).filteredFunds == []
  {
  }

  // ---------------------------------------------------------------- fees

  function FeeKey(f: Fund): real { f.expenseRatio }

  /** The cheaper half, ⌈n/2⌉ funds, by ascending expense ratio: no fund
      left out is cheaper than one taken. */
  function FilterByFees(funds: seq<Fund>): (r: AnalysisResult)
    ensures 2 * |r.filteredFunds| == |funds| || 2 * |r.filteredFunds| == |funds| + 1
    ensures SmallestBy(r.filteredFunds, funds, FeeKey)
    ensures multiset(r.filteredFunds) <= multiset(funds)
    ensures r.criteria == ["Low Fees", "Expense Ratio"]
  {
    var ranked := SortBy(funds, FeeKey);
    var k := (|funds| + 1) / 2;
    PrefixDominates(funds, ranked, FeeKey, k);
    AnalysisResult(ranked[..k],
      FeeExplanation,
      ["Low Fees", "Expense Ratio"])
  }

  // ------------------------------------------------ tech, bonds and ESG

  /** String concatenation of a nullable column: `null` reads "null". */
  function OrNull(s: Option<string>): string
  {
    match s
    case None => "null"
    case Some(t) => t
  }

  /** `(fund.name + ' ' + fund.objective).toLowerCase()`. */
  function SearchText(f: Fund): string
  {
    ToLower(f.name + " " + OrNull(f.objective))
  }

  function Mentions(keywords: seq<string>): Fund -> bool
  {
    (f: Fund) => ContainsAny(SearchText(f), keywords)
  }

  /** The funds whose name or objective mentions one of `keywords`. */
  function FilterByKeywords(funds: seq<Fund>, keywords: seq<string>, explanation: string, criteria: seq<string>)
    : (r: AnalysisResult)
    ensures Selects(r.filteredFunds, funds, Mentions(keywords))
    ensures multiset(r.filteredFunds) <= multiset(funds)
    ensures forall f :: f in r.filteredFunds <==> f in funds && ContainsAny(SearchText(f), keywords)
    ensures r.explanation == explanation && r.criteria == criteria
  {
    FilterSelects(funds, Mentions(keywords));
    AnalysisResult(Filter(funds, Mentions(keywords)), explanation, criteria)
  }

  function FilterByTech(funds: seq<Fund>): (r: AnalysisResult)
    ensures multiset(r.filteredFunds) <= multiset(funds)
    ensures Selects(r.filteredFunds, funds, Mentions(TechKeywords))
    ensures r.criteria == ["Technology Sector", "Growth Focus"]
  {
    FilterByKeywords(funds, TechKeywords,
      TechExplanation,
      ["Technology Sector", "Growth Focus"])
  }

  function FilterByBonds(funds: seq<Fund>): (r: AnalysisResult)
    ensures multiset(r.filteredFunds) <= multiset(funds)
    ensures Selects(r.filteredFunds, funds, Mentions(BondKeywords))
    ensures r.criteria == ["Fixed Income", "Bonds"]
  {
    FilterByKeywords(funds, BondKeywords,
      BondExplanation,
      ["Fixed Income", "Bonds"])
  }

  function FilterByEsg(funds: seq<Fund>): (r: AnalysisResult)
    ensures multiset(r.filteredFunds) <= multiset(funds)
    ensures Selects(r.filteredFunds, funds, Mentions(EsgKeywords))
    ensures r.criteria == ["ESG", "Sustainable Investing"]
  {
    FilterByKeywords(funds, EsgKeywords,
      EsgExplanation,
      ["ESG", "Sustainable Investing"])
  }

  // ------------------------------------------------------ min investment

  /** The first run of digits in the query, read as a number, or 5000 when
      the query has no digit. */
  function TargetAmount(q: string): (amount: nat)
    ensures !HasDigit(q) ==> amount == DefaultMinInvestment
    ensures HasDigit(q) ==>
      exists i :: 0 <= i < |q| && IsDigit(q[i])
                  && (forall j :: 0 <= j < i ==> !IsDigit(q[j]))
                  && amount == DecimalValue(DigitPrefix(q[i..]))
  {
    match FirstNumber(q)
    case None => DefaultMinInvestment
    case Some(n) => n
  }

  function AffordableAt(amount: nat): Fund -> bool
  {
    (f: Fund) => f.minInvestment <= amount
  }

  /** The label's "≤" as the source file spells it, in mis-decoded UTF-8. */
  const AtMost: string := "\U{00E2}\U{2030}\U{00A4}"

  /** Exactly the funds whose minimum investment is within the target, in
      catalog order; the target is shown with thousands separators. */
  function FilterByMinInvestment(funds: seq<Fund>, q: string): (r: AnalysisResult)
    ensures Selects(r.filteredFunds, funds, AffordableAt(TargetAmount(q)))
    ensures multiset(r.filteredFunds) <= multiset(funds)
    ensures forall f :: f in r.filteredFunds <==> f in funds && f.minInvestment <= TargetAmount(q)
    ensures r.criteria == ["Min Investment " + AtMost + " $" + Grouped(TargetAmount(q))]
  {
    var amount := TargetAmount(q);
    FilterSelects(funds, AffordableAt(amount));
    AnalysisResult(Filter(funds, AffordableAt(amount)),
      "Selected funds with minimum investment of $" + Grouped(amount) + " or less.",
      ["Min Investment " + AtMost + " $" + Grouped(amount)])
  }

  // ------------------------------------------------------ keyword search

  function LongWord(w: string): bool { |w| > 2 }

  /** `query.split(' ').filter(word => word.length > 2)`. */
  function Keywords(q: string): (ws: seq<string>)
    ensures forall w :: w in ws <==> w in Split(q) && |w| > 2
    ensures forall w :: w in ws ==> ' ' !in w
  {
    FilterSelects(Split(q), LongWord);
    Filter(Split(q), LongWord)
  }

  /** `(fund.name + ' ' + fund.manager + ' ' + fund.objective).toLowerCase()`. */
  function FullText(f: Fund): string
  {
    ToLower(f.name + " " + f.manager + " " + OrNull(f.objective))
  }

  function Found(keywords: seq<string>): Fund -> bool
  {
    (f: Fund) => ContainsAny(FullText(f), keywords)
  }

  /** No fund mentions any of `keywords`. */
  ghost predicate NoneFound(funds: seq<Fund>, keywords: seq<string>)
  {
    forall f :: f in funds ==> !ContainsAny(FullText(f), keywords)
  }

  /** `funds.slice(0, 6)`: the first six funds, or all of them if fewer. */
  function Popular(funds: seq<Fund>): (r: seq<Fund>)
    ensures |r| == Min(PopularCount, |funds|)
    ensures r == funds[..|r|]
    ensures multiset(r) <= multiset(funds)
  {
    var n := Min(PopularCount, |funds|);
    assert funds == funds[..n] + funds[n..];
    funds[..n]
  }

  /** The funds mentioning a query word longer than two characters; when
      none does, the popular funds instead. */
  function KeywordSearch(funds: seq<Fund>, q: string): (r: AnalysisResult)
    ensures multiset(r.filteredFunds) <= multiset(funds)
    ensures !NoneFound(funds, Keywords(q)) ==>
      r.criteria == ["Keyword Match"] && Selects(r.filteredFunds, funds, Found(Keywords(q)))
    ensures NoneFound(funds, Keywords(q)) ==>
      r.criteria == ["Popular Funds"] && r.filteredFunds == Popular(funds)
  {
    var keywords := Keywords(q);
    var matched := Filter(funds, Found(keywords));
    FilterSelects(funds, Found(keywords));
    if |matched| > 0 then
      assert matched[0] in funds && Found(keywords)(matched[0]);
      AnalysisResult(matched, MatchExplanation, ["Keyword Match"])
    else
      AnalysisResult(Popular(funds), PopularExplanation, ["Popular Funds"])
  }

  // ------------------------------------------------------------- analyze

  /** The chosen category's filter, applied to a normalized query.
      Whatever the category, every fund returned comes from the list and
      the result carries at least one criterion. */
  function Dispatch(funds: seq<Fund>, q: string): (r: AnalysisResult)
    ensures multiset(r.filteredFunds) <= multiset(funds)
    ensures r.criteria != []
  {
    match Classify(q)
    case Risk => FilterByRisk(funds, q)
    case Return => FilterByReturn(funds, q)
    case Region => FilterByRegion(funds, q)
    case Fee => FilterByFees(funds)
    case Tech => FilterByTech(funds)
    case Bond => FilterByBonds(funds)
    case MinInvestment => FilterByMinInvestment(funds, q)
    case Esg => FilterByEsg(funds)
    case Keyword => KeywordSearch(funds, q)
  }

  /** `analyze(query)`. */
  function Analyze(funds: seq<Fund>, query: string): (r: AnalysisResult)
    ensures multiset(r.filteredFunds) <= multiset(funds)
    ensures r.criteria != []
  {
    Dispatch(funds, Normalize(query))
  }

  /** The analyzer normalizes its query itself: a query and its
      normalized form are analyzed alike. */
  lemma AnalyzeNormalized(funds: seq<Fund>, query: string)
    ensures Analyze(funds, Normalize(query)) == Analyze(funds, query)
  {
    NormalizeIdempotent(query);
  }

  /** "growth" is a return keyword, and return queries are tried before
      technology ones: the technology matcher's "growth" never decides. */
  lemma TechNeverSeesGrowth(q: string)
    ensures Classify(q) == Tech ==> !Contains(q, "growth")
  {
    if Contains(q, "growth") {
      assert ReturnKeywords[3] == "growth";
      assert MatchesReturnQuery(q);
    }
  }

  /** "sustainable" contains "us", a region keyword, and region queries are
      tried before ESG ones: a query saying "sustainable" is classified as
      risk, return or region and never reaches the ESG filter. */
  lemma SustainableNeverEsg(q: string)
    ensures Contains(q, "sustainable") ==> Rank(Classify(q)) <= Rank(Region)
  {
    if Contains(q, "sustainable") {
      assert OccursAt("sustainable", "us", 1);
      ContainsWithin(q, "sustainable", "us");
      assert RegionKeywords[0] == "us";
      assert MatchesRegionQuery(q);
    }
  }
}
