/**
 * The page-side logic of public/content.js: choosing a site label from the
 * page address, and the fixed mock records every path returns, stamped with
 * that label.
 */
module ContentScript {
  import opened Wrappers
  import opened Strings
  import opened ParseTransaction
  import opened Search

  // ---------------------------------------------------------------------------
  // Mock data

  /** The seven records of `getMockTransactions(source)`; only the fourth mentions `source`. */
  function MockEntries(source: string): seq<Entry> {
    [
      Out("Mar 03, 2025", "INTERAC ETRNSFR SENT LULU 202506015341KAYPVG", "$90.00", "$7,754.03"),
      Out("Feb 21, 2025", "BRANCH BILL PAYMENT BRANCH 0389 FLYWIRE", "$6,139.00", "$7,844.03"),
      Out("Feb 20, 2025", "GOODLIFE CLUBS MSP/DIV", "$45.19", "$13,983.03"),
      Out("Feb 18, 2025", source + " TRANSACTION TF 3933#3607-829", "$808.00", "$14,028.22"),
      Out("Feb 18, 2025", "TF 3933#3607-829", "$160.00", "$14,836.22"),
      Out("Feb 18, 2025", "HANDLING CHG 768332", "$16.00", "$14,996.22"),
      In("Feb 18, 2025", "INCOMING WIRE PAYMENT TW, KAO SHENG WEN", "$14,985.00", "$15,012.22")
    ]
  }

  /**
   * `getMockTransactions(source)`: seven one-sided records, each tagged with
   * `source`. They are the first seven bank samples, except that the fourth
   * description is prefixed with the source and " TRANSACTION ".
   */
  function GetMockTransactions(source: string, inputTime: string): (r: seq<Transaction>)
    ensures |r| == 7
    ensures forall i | 0 <= i < |r| :: r[i].metadata == Metadata(source, inputTime) && OneSided(Unstamp(r[i]))
    ensures forall i | 0 <= i < |r| && i != 3 :: Unstamp(r[i]) == SampleEntries[i]
    ensures Unstamp(r[3]) == SampleEntries[3].(description := source + " TRANSACTION " + SampleEntries[3].description)
  {
    MockMatchesSample(source);
    StampAll(MockEntries(source), source, inputTime)
  }

  lemma MockMatchesSample(source: string)
    ensures |MockEntries(source)| == 7
    ensures forall i | 0 <= i < 7 :: OneSided(MockEntries(source)[i])
    ensures forall i | 0 <= i < 7 && i != 3 :: MockEntries(source)[i] == SampleEntries[i]
    ensures MockEntries(source)[3] == SampleEntries[3].(description := source + " TRANSACTION " + SampleEntries[3].description)
  {
  }

  // ---------------------------------------------------------------------------
  // Per-site parsers: each is the mock data tagged with its site's name.

  function ParseChaseTransactions(inputTime: string): (r: seq<Transaction>)
    ensures r == GetMockTransactions("Chase", inputTime)
  {
    GetMockTransactions("Chase", inputTime)
  }

  function ParseBankOfAmericaTransactions(inputTime: string): (r: seq<Transaction>)
    ensures r == GetMockTransactions("Bank of America", inputTime)
  {
    GetMockTransactions("Bank of America", inputTime)
  }

  function ParseWellsFargoTransactions(inputTime: string): (r: seq<Transaction>)
    ensures r == GetMockTransactions("Wells Fargo", inputTime)
  {
    GetMockTransactions("Wells Fargo", inputTime)
  }

  function ParseCapitalOneTransactions(inputTime: string): (r: seq<Transaction>)
    ensures r == GetMockTransactions("Capital One", inputTime)
  {
    GetMockTransactions("Capital One", inputTime)
  }

  function ParseCitibankTransactions(inputTime: string): (r: seq<Transaction>)
    ensures r == GetMockTransactions("Citibank", inputTime)
  {
    GetMockTransactions("Citibank", inputTime)
  }

  /**
   * `parseGenericTransactions()`, with the number of `<table>` elements on the
   * page as a parameter: with tables or without, the result is the mock data
   * labelled "Generic".
   */
  function ParseGenericTransactions(tableCount: nat, inputTime: string): (r: seq<Transaction>)
    ensures r == GetMockTransactions("Generic", inputTime)
    ensures forall i | 0 <= i < |r| :: r[i].metadata.inputSource == "Generic"
  {
    if tableCount == 0 then GetMockTransactions("Generic", inputTime)
    else GetMockTransactions("Generic", inputTime)
  }

  // ---------------------------------------------------------------------------
  // Dispatch

  /** The site rules in the order they are tried: a substring of the address, and the label it selects. */
  const SiteRules: seq<(string, string)> := [
    ("chase.com", "Chase"),
    ("bankofamerica.com", "Bank of America"),
    ("wellsfargo.com", "Wells Fargo"),
    ("capitalone.com", "Capital One"),
    ("citibank.com", "Citibank")
  ]

  /** Whether the address includes the pattern of a rule. */
  function Matches(url: string): ((string, string)) -> bool {
    (rule: (string, string)) => Includes(url, rule.0)
  }

  /**
   * The label a page address selects: the label of the first rule, in rule
   * order, whose pattern the lower-cased address includes, or "Generic" when
   * none does.
   */
  function SiteLabel(url: string): (site: string)
    ensures site == "Generic" <==> forall i | 0 <= i < |SiteRules| :: !Includes(Lower(url), SiteRules[i].0)
    ensures site != "Generic" ==>
              exists i | 0 <= i < |SiteRules| ::
                && Includes(Lower(url), SiteRules[i].0)
                && (forall j | 0 <= j < i :: !Includes(Lower(url), SiteRules[j].0))
                && site == SiteRules[i].1
  {
    match FirstIndex(SiteRules, Matches(Lower(url)), 0)
    case Some(i) => SiteRules[i].1
    case None => "Generic"
  }

  /**
   * `parseTransactionsFromPage()`, with the page address and the number of
   * tables on it as parameters: the chain of address tests picks the same
   * label as the rule list, and the result is the mock data with that label.
   */
  function ParseTransactionsFromPage(url: string, tableCount: nat, inputTime: string): (r: seq<Transaction>)
    ensures r == GetMockTransactions(SiteLabel(url), inputTime)
  {
    var u := Lower(url);
    SiteLabelByChain(url);
    if Includes(u, "chase.com") then ParseChaseTransactions(inputTime)
    else if Includes(u, "bankofamerica.com") then ParseBankOfAmericaTransactions(inputTime)
    else if Includes(u, "wellsfargo.com") then ParseWellsFargoTransactions(inputTime)
    else if Includes(u, "capitalone.com") then ParseCapitalOneTransactions(inputTime)
    else if Includes(u, "citibank.com") then ParseCitibankTransactions(inputTime)
    else ParseGenericTransactions(tableCount, inputTime)
  }

  /** The rule list, tried in order, agrees with the source's chain of tests. */
  lemma SiteLabelByChain(url: string)
    ensures var u := Lower(url);
            SiteLabel(url) ==
              if Includes(u, "chase.com") then "Chase"
              else if Includes(u, "bankofamerica.com") then "Bank of America"
              else if Includes(u, "wellsfargo.com") then "Wells Fargo"
              else if Includes(u, "capitalone.com") then "Capital One"
              else if Includes(u, "citibank.com") then "Citibank"
              else "Generic"
  {
  }

  /** Dispatch ignores ASCII case in the address. */
  lemma SiteLabelIgnoresCase(url: string)
    ensures SiteLabel(url) == SiteLabel(Lower(url))
  {
    LowerIdempotent(url);
  }

  /** Whatever else the address holds, "chase.com" in any case selects Chase. */
  lemma ChaseWins(url: string)
    requires Includes(Lower(url), "chase.com")
    ensures SiteLabel(url) == "Chase"
  {
    SiteLabelByChain(url);
  }
}
