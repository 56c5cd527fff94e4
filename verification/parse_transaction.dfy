/**
 * The transaction record, the fixed sample data and the logo lookup of
 * src/utils/parseTransaction.ts.
 */
module ParseTransaction {
  import opened Wrappers
  import opened Strings
  import opened Search

  datatype Metadata = Metadata(inputSource: string, inputTime: string)

  /** A parsed transaction; an absent money field is `None`. */
  datatype Transaction = Transaction(
    date: string,
    description: string,
    moneyOut: Option<string>,
    moneyIn: Option<string>,
    balance: string,
    metadata: Metadata)

  /** A sample record as written in the source, before `metadata` is spread into it. */
  datatype Entry = Entry(
    date: string,
    description: string,
    moneyOut: Option<string>,
    moneyIn: Option<string>,
    balance: string)

  /** `{ ...entry, metadata: { inputSource, inputTime } }`. */
  function Stamp(e: Entry, source: string, time: string): Transaction {
    Transaction(e.date, e.description, e.moneyOut, e.moneyIn, e.balance, Metadata(source, time))
  }

  /** Forgets the metadata again. */
  function Unstamp(t: Transaction): Entry {
    Entry(t.date, t.description, t.moneyOut, t.moneyIn, t.balance)
  }

  /** Exactly one of the two money fields is present. */
  predicate OneSided(e: Entry) {
    e.moneyOut.Some? != e.moneyIn.Some?
  }

  /**
   * `entries.map(e => ({ ...e, metadata }))`: same length, same order, every
   * record keeps its own fields and gains the given metadata.
   */
  function StampAll(entries: seq<Entry>, source: string, time: string): (r: seq<Transaction>)
    ensures |r| == |entries|
    ensures forall i | 0 <= i < |r| ::
              Unstamp(r[i]) == entries[i] && r[i].metadata == Metadata(source, time)
  {
    seq(|entries|, i requires 0 <= i < |entries| => Stamp(entries[i], source, time))
  }

  /** A record that only spends money, with its fields in the order of the record type. */
  function Out(date: string, description: string, amount: string, balance: string): Entry {
    Entry(date, description, Some(amount), None, balance)
  }

  /** A record that only receives money, with its fields in the order of the record type. */
  function In(date: string, description: string, amount: string, balance: string): Entry {
    Entry(date, description, None, Some(amount), balance)
  }

  /** The ten sample records of `parseTransactionFromBank`, in source order. */
  const SampleEntries: seq<Entry> := [
    Out("Mar 03, 2025", "INTERAC ETRNSFR SENT LULU 202506015341KAYPVG", "$90.00", "$7,754.03"),
    Out("Feb 21, 2025", "BRANCH BILL PAYMENT BRANCH 0389 FLYWIRE", "$6,139.00", "$7,844.03"),
    Out("Feb 20, 2025", "GOODLIFE CLUBS MSP/DIV", "$45.19", "$13,983.03"),
    Out("Feb 18, 2025", "TF 3933#3607-829", "$808.00", "$14,028.22"),
    Out("Feb 18, 2025", "TF 3933#3607-829", "$160.00", "$14,836.22"),
    Out("Feb 18, 2025", "HANDLING CHG 768332", "$16.00", "$14,996.22"),
    In("Feb 18, 2025", "INCOMING WIRE PAYMENT TW, KAO SHENG WEN", "$14,985.00", "$15,012.22"),
    Out("Feb 18, 2025", "RECURRING PYMNT 17FEB2025APPLE.COM/BILL ON", "$1.12", "$27.22"),
    Out("Feb 18, 2025", "TF 000519123022775845", "$189.11", "$28.34"),
    In("Feb 18, 2025", "TF 3933#3607-829", "$100.00", "$217.45")
  ]

  /** The three records `parseTransactionFromPage` returns, in source order. */
  const PageEntries: seq<Entry> := [
    Out("Mar 03, 2025", "INTERAC ETRNSFR SENT LULU 202506015341KAYPVG", "$90.00", "$7,754.03"),
    Out("Feb 21, 2025", "BRANCH BILL PAYMENT BRANCH 0389 FLYWIRE", "$6,139.00", "$7,844.03"),
    Out("Feb 20, 2025", "GOODLIFE CLUBS MSP/DIV", "$45.19", "$13,983.03")
  ]

  /**
   * `parseTransactionFromBank(bankName)`: the bank name is not consulted; the
   * result is always the ten sample records, in order, each one-sided and
   * tagged "Manual".
   */
  function ParseTransactionFromBank(bankName: string, inputTime: string): (r: seq<Transaction>)
    ensures |r| == 10
    ensures forall i | 0 <= i < |r| ::
              Unstamp(r[i]) == SampleEntries[i] && r[i].metadata == Metadata("Manual", inputTime)
    ensures forall i | 0 <= i < |r| :: OneSided(Unstamp(r[i]))
  {
    StampAll(SampleEntries, "Manual", inputTime)
  }

  /**
   * `parseTransactionFromPage()` without its delay: three one-sided records
   * tagged "Automatic", which are the first three bank samples.
   */
  function ParseTransactionFromPage(inputTime: string): (r: seq<Transaction>)
    ensures |r| == 3
    ensures forall i | 0 <= i < |r| ::
              Unstamp(r[i]) == SampleEntries[i] && r[i].metadata == Metadata("Automatic", inputTime)
    ensures forall i | 0 <= i < |r| :: OneSided(Unstamp(r[i]))
  {
    StampAll(PageEntries, "Automatic", inputTime)
  }

  // ---------------------------------------------------------------------------
  // Logo lookup

  /** `logoMap`, as an association list in declaration order. */
  const LogoMap: seq<(string, string)> := [
    ("chase", "https://logo.clearbit.com/chase.com"),
    ("wells fargo", "https://logo.clearbit.com/wellsfargo.com"),
    ("bank of america", "https://logo.clearbit.com/bankofamerica.com"),
    ("citibank", "https://logo.clearbit.com/citibank.com"),
    ("capital one", "https://logo.clearbit.com/capitalone.com"),
    ("amazon", "https://logo.clearbit.com/amazon.com"),
    ("walmart", "https://logo.clearbit.com/walmart.com"),
    ("target", "https://logo.clearbit.com/target.com"),
    ("apple", "https://logo.clearbit.com/apple.com"),
    ("netflix", "https://logo.clearbit.com/netflix.com"),
    ("spotify", "https://logo.clearbit.com/spotify.com"),
    ("uber", "https://logo.clearbit.com/uber.com"),
    ("lyft", "https://logo.clearbit.com/lyft.com"),
    ("doordash", "https://logo.clearbit.com/doordash.com"),
    ("grubhub", "https://logo.clearbit.com/grubhub.com")
  ]

  /** A key and a name are related when either includes the other. */
  predicate Related(key: string, name: string) {
    Includes(name, key) || Includes(key, name)
  }

  /** Every value of the list is a non-empty (hence truthy) string. */
  predicate TruthyValues(m: seq<(string, string)>) {
    forall i | 0 <= i < |m| :: m[i].1 != ""
  }

  /**
   * `findLogo` over an arbitrary logo list: lower-case the name; a key equal to
   * it wins outright; otherwise the first key, in list order, related to it;
   * otherwise nothing.
   */
  function FindLogoIn(m: seq<(string, string)>, name: string): (r: Option<string>)
    requires TruthyValues(m)
    ensures forall i | 0 <= i < |m| && m[i].0 == Lower(name) && (forall j | 0 <= j < i :: m[j].0 != Lower(name)) ::
              r == Some(m[i].1)
    ensures r.None? <==> forall i | 0 <= i < |m| :: !Related(m[i].0, Lower(name))
    ensures (forall i | 0 <= i < |m| :: m[i].0 != Lower(name)) && r.Some? ==>
              exists i | 0 <= i < |m| ::
                && Related(m[i].0, Lower(name))
                && (forall j | 0 <= j < i :: !Related(m[j].0, Lower(name)))
                && r == Some(m[i].1)
  {
    var lowerName := Lower(name);
    var direct := FirstIndex(m, (e: (string, string)) => e.0 == lowerName, 0);
    if direct.Some? && m[direct.value].1 != "" then
      IncludesTrivial(lowerName);
      Some(m[direct.value].1)
    else
      match FirstIndex(m, (e: (string, string)) => Related(e.0, lowerName), 0)
      case Some(i) => Some(m[i].1)
      case None => None
  }

  /**
   * `findLogo(name)` on the source's `logoMap`: nothing exactly when no key
   * is related to the lower-cased name; otherwise the logo of an exact key,
   * or else of the first related key.
   */
  function FindLogo(name: string): (r: Option<string>)
    ensures r.None? <==> forall i | 0 <= i < |LogoMap| :: !Related(LogoMap[i].0, Lower(name))
    ensures forall i | 0 <= i < |LogoMap| && LogoMap[i].0 == Lower(name) && (forall j | 0 <= j < i :: LogoMap[j].0 != Lower(name)) ::
              r == Some(LogoMap[i].1)
    ensures (forall i | 0 <= i < |LogoMap| :: LogoMap[i].0 != Lower(name)) && r.Some? ==>
              exists i | 0 <= i < |LogoMap| ::
                && Related(LogoMap[i].0, Lower(name))
                && (forall j | 0 <= j < i :: !Related(LogoMap[j].0, Lower(name)))
                && r == Some(LogoMap[i].1)
  {
    assert TruthyValues(LogoMap);
    FindLogoIn(LogoMap, name)
  }

  /** A brand name in any case finds its own logo by exact key. */
  lemma FindLogoExactKey()
    ensures FindLogo("Netflix") == Some("https://logo.clearbit.com/netflix.com")
  {
    var m := LogoMap;
    assert Lower("Netflix") == "netflix";
    assert m[9].0 == "netflix";
    assert forall j | 0 <= j < 9 :: m[j].0 != "netflix";
  }

  /** A name that merely contains a brand finds that brand's logo by partial match. */
  lemma FindLogoPartialMatch()
    ensures FindLogo("Chase Bank") == Some("https://logo.clearbit.com/chase.com")
  {
    var m := LogoMap;
    assert Lower("Chase Bank") == "chase bank";
    assert forall i | 0 <= i < |m| :: m[i].0 != "chase bank";
    assert OccursAt("chase", "chase bank", 0);
    assert Related(m[0].0, "chase bank");
  }

  /** The lookup ignores ASCII case: a name and its lower-cased form find the same logo. */
  lemma FindLogoIgnoresCase(m: seq<(string, string)>, name: string)
    requires TruthyValues(m)
    ensures FindLogoIn(m, name) == FindLogoIn(m, Lower(name))
  {
    LowerIdempotent(name);
  }

  /** Every key includes the empty string, so the empty name finds the first logo, Chase's. */
  lemma FindLogoEmptyName()
    ensures FindLogo("") == Some("https://logo.clearbit.com/chase.com")
  {
    var m := LogoMap;
    assert TruthyValues(m);
    assert Lower("") == "";
    assert forall i | 0 <= i < |m| :: m[i].0 != "";
    IncludesTrivial(m[0].0);
    assert Related(m[0].0, "");
  }
}
