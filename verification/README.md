# bank-snapshot: a Dafny model of the transaction core

bank-snapshot is a browser extension. It shows a list of bank transactions
and lets the user download them as a CSV file. This project models the parts
of it that compute something. All of them are pure functions of their
inputs.

- **Transactions** (`src/utils/parseTransaction.ts`). A `Transaction` record
  has a date, a description, optional money-out and money-in amounts, a
  balance, and metadata naming the input source and the input time. There
  are two fixed sample lists: ten "Manual" records from the bank simulation
  and three "Automatic" records from the page simulation. `findLogo` looks a
  name up in the logo table: first by exact lower-cased key, then by the
  first key that includes the name or is included by it.
- **CSV export** (`src/components/TransactionDetails.tsx`):
  - `formatDate` keeps a date that already reads like "Feb 18, 2025".
    Anything else goes to the runtime's locale formatter.
  - Each transaction becomes five cells under a fixed header row.
  - A cell holding a comma is quoted, with its inner quotes doubled.
  - Cells are joined with commas and lines with line feeds.
- **Content script** (`public/content.js`). The lower-cased page address
  chooses a site label: Chase, Bank of America, Wells Fargo, Capital One,
  Citibank, or Generic. Every path returns the same seven mock records
  tagged with that label. The fourth record's description also carries the
  label.
- **Initials** (`src/components/Logo.tsx`). `getInitials` splits the name on
  single spaces and takes the first character of each part. It joins those
  characters, upper-cases them and keeps at most two.

None of the parsing functions reads a page. The comments at
`src/utils/parseTransaction.ts:50-65` and `public/content.js:81` and `:95-96`
describe finding transaction tables in the page and extracting their rows.
The code never does this: every entry point returns fixed mock data.
`parseGenericTransactions` only counts the page's tables, and it returns the
same records whether or not there are any. The model follows the code.

The model is organised in these modules:

- `Wrappers`: `Option`.
- `Strings`: ASCII case mapping, substring search, and JavaScript-style
  `split` and `join`.
- `ParseTransaction`: the record types, the sample data and `findLogo`.
- `TransactionDetails`: the CSV writer.
- `Search`: the first-match scan that the logo lookup and the site dispatch
  share.
- `CsvReader`: a reader in the quoting convention of RFC 4180. A quoted
  field may hold commas, doubled quotes and line feeds. It is more lenient
  than RFC 4180: a quoted field left open at the end of the text ends there,
  and text after a closing quote is kept. The source contains
  no reader. It exists here so the writer's round trip can be stated.
- `ContentScript`: site dispatch and the mock data.
- `Logo`: initials.

These become parameters:

- the clock (`inputTime`);
- the page address;
- the number of `<table>` elements on the page;
- the runtime's locale date formatter (`localeFormat`).

## Model

| member | source | states |
|---|---|---|
| `ParseTransaction.StampAll` | src/utils/parseTransaction.ts:188-194 | Adding metadata keeps the length, the order and every record's own fields. Every record gets the same source and time. |
| `ParseTransaction.ParseTransactionFromBank` | src/utils/parseTransaction.ts:112-195 | Whatever the bank name, there are ten records equal to the sample list. Each is tagged "Manual" with the given time. Each has exactly one of money-out and money-in. |
| `ParseTransaction.ParseTransactionFromPage` | src/utils/parseTransaction.ts:55-109 | There are three records. They are the first three samples, tagged "Automatic", each with exactly one money side. |
| `Search.FirstIndex` | src/utils/parseTransaction.ts:41-45 | Gives the first index, in order, whose element satisfies the test. None means no element does. The logo lookup and the site dispatch both use it. |
| `ParseTransaction.FindLogoIn` | src/utils/parseTransaction.ts:34-48 | An exact key match on the lower-cased name returns that key's URL. The result is absent exactly when no key is related to the name. Otherwise it is the URL of the first related key. |
| `ParseTransaction.FindLogo` | src/utils/parseTransaction.ts:15-48 | On the source's fifteen-entry table, the result is absent exactly when no key is related to the lower-cased name. An exact key gives its own URL. Otherwise the result is the URL of the first related key in declaration order. |
| `ParseTransaction.FindLogoExactKey` | src/utils/parseTransaction.ts:34-38 | "Netflix" lower-cases to the key "netflix" and finds Netflix's logo. |
| `ParseTransaction.FindLogoPartialMatch` | src/utils/parseTransaction.ts:40-45 | "Chase Bank" is no key, but it contains "chase", so it finds Chase's logo. |
| `ParseTransaction.FindLogoIgnoresCase` | src/utils/parseTransaction.ts:34-35 | A name and its lower-cased form find the same logo. |
| `ParseTransaction.FindLogoEmptyName` | src/utils/parseTransaction.ts:15-48 | The empty name is included in every key, so it finds the first logo, Chase's. |
| `Strings.Split` | src/components/Logo.tsx:21 | `split` on one character gives at least one part, and no part contains the separator. |
| `Strings.JoinSplit` | src/components/Logo.tsx:20-23 | Joining the parts of a split with the separator gives back the original string. |
| `Strings.SplitJoin` | src/components/TransactionDetails.tsx:49-59 | Splitting a join of separator-free parts gives back the parts. This is how the lines of the CSV text are recovered. |
| `Strings.LowerIdempotent` | public/content.js:30 | Lower-casing twice equals lower-casing once. |
| `Strings.Lower` | public/content.js:30 | Defines `toLowerCase` on ASCII. The result has the same length and contains no upper-case ASCII letter. Each upper-case letter moves down by 32 code points, and every other character is kept. |
| `Strings.Upper` | src/components/Logo.tsx:24 | Defines `toUpperCase` on ASCII. The result has the same length and contains no lower-case ASCII letter. Each lower-case letter moves up by 32 code points, and every other character is kept. |
| `Strings.Includes` | public/content.js:33-41 | Defines `includes`: the pattern occurs as a contiguous slice somewhere in the string. A string can include only patterns no longer than itself, whose characters it all contains. |
| `Strings.Join` | src/components/TransactionDetails.tsx:57-59 | Defines `join`: an empty list joins to the empty string, and a non-empty list's join starts with its first part. |
| `Logo.GetInitials` | src/components/Logo.tsx:19-26 | The result has at most two characters. It is the first two upper-cased characters of the word-start sequence: each non-space character that opens the name or follows a space. |
| `Logo.SplitInitials` | src/components/Logo.tsx:20-23 | The first characters of the space-separated parts are exactly the word-start characters. Empty parts contribute nothing. |
| `Logo.EmptyNameInitials` | src/components/Logo.tsx:19-26 | An empty name has empty initials. |
| `Logo.SingleWordInitials` | src/components/Logo.tsx:19-26 | A non-empty name without a space yields its first character, upper-cased. |
| `Logo.TabIsNotASeparator` | src/components/Logo.tsx:21 | Only the space separates words: "jane\tdoe" gives "J". |
| `Logo.LeadingSpaceIgnored` | src/components/Logo.tsx:21-23 | A leading space changes nothing. |
| `Logo.RepeatedSpaceIgnored` | src/components/Logo.tsx:21-23 | A run of two spaces separates words exactly like one space. |
| `Logo.DoubleSpaceInitials` | src/components/Logo.tsx:19-26 | Names that differ only by a doubled space have the same initials. |
| `TransactionDetails.DatePatternAt` | src/components/TransactionDetails.tsx:19 | Defines a match of `[A-Za-z]{3}\s\d{1,2},\s\d{4}` starting at one index, with JavaScript's `\s`. A match spans 11 or 12 characters: it starts with a letter, has a digit at offset 4 and at offset 10, and has its comma at offset 5 or 6. |
| `TransactionDetails.HasDatePattern` | src/components/TransactionDetails.tsx:19 | Defines the unanchored `test` of that pattern: a match starting anywhere in the string. A string that passes has at least 11 characters and contains a comma. |
| `TransactionDetails.DatePatternAccepts` | src/components/TransactionDetails.tsx:19 | The date test accepts "Feb 18, 2025", a one-digit day as in "Mar 3, 2025", and a date inside longer text. |
| `TransactionDetails.DatePatternRejects` | src/components/TransactionDetails.tsx:19 | The date test rejects the ISO date "2025-02-18" and "Feb 18 2025", which lacks the comma. |
| `TransactionDetails.SampleDatesKept` | src/components/TransactionDetails.tsx:19-21 | Every date of the sample records passes the date test, so `formatDate` returns it unchanged. |
| `TransactionDetails.FormatDate` | src/components/TransactionDetails.tsx:17-29 | A date containing "three letters, whitespace, one or two digits, comma, whitespace, four digits" is returned unchanged, and so contains a comma. Any other date goes to the locale formatter. |
| `TransactionDetails.MoneyCell` | src/components/TransactionDetails.tsx:41-42 | An absent amount becomes the empty string. A present amount is written as it is. |
| `TransactionDetails.Cells` | src/components/TransactionDetails.tsx:38-44 | A row has five cells in header order. The date is kept when it already has the pattern shape and is locale-formatted otherwise. Then come the description, the money-out and money-in amounts (empty when absent), and the balance. |
| `TransactionDetails.Table` | src/components/TransactionDetails.tsx:33-46 | The header row comes first, then one row per transaction in input order. Row i+1 holds the cells of transaction i. |
| `TransactionDetails.DoubleQuotes` | src/components/TransactionDetails.tsx:54 | Doubling quotes never shortens a string. It leaves a quote-free string unchanged. It neither adds nor removes line feeds. |
| `TransactionDetails.EscapeCell` | src/components/TransactionDetails.tsx:51-56 | A cell without a comma is written verbatim. A cell with a comma is written as exactly `"`, the cell with every `"` doubled, and `"`. Reading that back gives the original cell. Escaping neither adds nor removes line feeds. |
| `TransactionDetails.CsvLine` | src/components/TransactionDetails.tsx:50-57 | A line of escaped cells joined by commas holds a line feed only if one of its cells does. |
| `TransactionDetails.CsvText` | src/components/TransactionDetails.tsx:49-59 | When no cell holds a line feed, splitting the joined text at line feeds gives back exactly the written lines. |
| `TransactionDetails.CsvContent` | src/components/TransactionDetails.tsx:31-59 | The first line is always `Date,Description,Money Out,Money In,Balance`. With no transactions that line is the whole text. |
| `TransactionDetails.DateCellAlwaysQuoted` | src/components/TransactionDetails.tsx:19-55 | A date already in the "Feb 18, 2025" shape is always written quoted, and reads back unchanged. |
| `TransactionDetails.QuotedRoundTrip` | src/components/TransactionDetails.tsx:54 | Reading a doubled-quote body and its closing quote gives back the original cell and leaves the rest of the line. |
| `TransactionDetails.LineRoundTrip` | src/components/TransactionDetails.tsx:50-57 | Reading a written line gives back its cells when each cell is readable. A line feed after the line ends the record, and the reader resumes after it. |
| `TransactionDetails.TextRoundTrip` | src/components/TransactionDetails.tsx:49-59 | Reading the written text gives back every row when all cells are readable. Line feeds inside quoted cells stay inside their cell. |
| `TransactionDetails.QuotedLineFeedReadBack` | src/components/TransactionDetails.tsx:53-54 | The cell "a,\nb" holds a comma, so it is written quoted, and reading the text back keeps its line feed inside the cell. |
| `TransactionDetails.CsvLineStructure` | src/components/TransactionDetails.tsx:31-59 | If no cell holds a line feed, the text has one line per transaction plus the header. Line i+1 is transaction i's cells, escaped and joined by commas. |
| `TransactionDetails.CsvRoundTrip` | src/components/TransactionDetails.tsx:31-59 | If every cell is readable, reading the CSV text gives back the header row, then each transaction's cells in input order. |
| `TransactionDetails.CsvFields` | src/components/TransactionDetails.tsx:31-59 | Under the same condition, record i+1 read back from the CSV has five fields. They are transaction i's description, its balance, and its amounts, each empty when absent. Its date is kept as it was when already in the pattern shape. |
| `ContentScript.GetMockTransactions` | public/content.js:101-159 | There are seven one-sided records, all tagged with the source and time. They equal the first seven bank samples, except that the fourth description is prefixed with the source and " TRANSACTION ". |
| `ContentScript.ParseChaseTransactions` | public/content.js:50-55 | Exactly `getMockTransactions("Chase")`: the seven mock records tagged "Chase", with "Chase TRANSACTION" opening the fourth description. |
| `ContentScript.ParseBankOfAmericaTransactions` | public/content.js:57-61 | Exactly `getMockTransactions("Bank of America")`: the seven mock records tagged "Bank of America", with "Bank of America TRANSACTION" opening the fourth description. |
| `ContentScript.ParseWellsFargoTransactions` | public/content.js:63-67 | Exactly `getMockTransactions("Wells Fargo")`: the seven mock records tagged "Wells Fargo", with "Wells Fargo TRANSACTION" opening the fourth description. |
| `ContentScript.ParseCapitalOneTransactions` | public/content.js:69-73 | Exactly `getMockTransactions("Capital One")`: the seven mock records tagged "Capital One", with "Capital One TRANSACTION" opening the fourth description. |
| `ContentScript.ParseCitibankTransactions` | public/content.js:75-79 | Exactly `getMockTransactions("Citibank")`: the seven mock records tagged "Citibank", with "Citibank TRANSACTION" opening the fourth description. |
| `ContentScript.ParseGenericTransactions` | public/content.js:82-98 | With or without tables on the page, the result is the mock data tagged "Generic". |
| `ContentScript.SiteLabel` | public/content.js:29-47 | The label is "Generic" exactly when the lower-cased address contains none of the five site patterns. Otherwise it is the label of the first pattern, in rule order, that it contains. |
| `ContentScript.ParseTransactionsFromPage` | public/content.js:29-47 | The result is the mock data tagged with the address's site label. |
| `ContentScript.SiteLabelByChain` | public/content.js:33-46 | The ordered rule list picks the same label as the source's chain of if/else tests. |
| `ContentScript.SiteLabelIgnoresCase` | public/content.js:30 | Dispatch ignores ASCII case in the address. |
| `ContentScript.ChaseWins` | public/content.js:33-34 | An address containing "chase.com", in any case, selects Chase whatever else it contains. |

## Left out

- Chrome messaging is not modelled. This covers the `onMessage` listener, `sendResponse` and its error branch (public/content.js:5-26), which are I/O.
- The `Blob`, the object URL, the link click and the toasts (src/components/TransactionDetails.tsx:62-95) are not modelled. They are browser I/O that consumes the CSV text unchanged.
- The 1.5-second delay in `parseTransactionFromPage` is not modelled. Its `try`/`catch` returns `[]` only if that delay fails, which cannot happen in the model.
- Timestamps: the source calls `new Date().toISOString()` once per record. The model takes one `inputTime` per call, so it does not model records of one call carrying different times.
- The fallback of `formatDate` (`new Date(...).toLocaleDateString`, src/components/TransactionDetails.tsx:23-28) is the `localeFormat` parameter. JavaScript date parsing and locale formatting are not modelled.
- `window.location.href` and `document.querySelectorAll('table')` are parameters: the address, and the number of tables.
- Case mapping covers ASCII letters only. `toLowerCase` and `toUpperCase` on other Unicode letters are not modelled.
- Strings are sequences of Dafny characters, not UTF-16 code units. For names outside the Basic Multilingual Plane, `part[0]` in `getInitials` would take half a surrogate pair, which is not modelled.
- The logo table is an association list of its fifteen own entries. `logoMap[name]` in JavaScript also reaches inherited object properties such as `constructor`, which are not modelled.
- `typeof cell === 'string'` in the CSV writer is always true, because every cell is a string. The model omits the test.
- CsvRoundTrip: requires every cell to be readable. A cell with a comma is quoted and always readable, even when it holds a line feed. A cell without a comma is written verbatim, so it must hold no line feed and must not open with a quote. A verbatim line feed ends the record early, and a verbatim leading quote opens a quoted field. No RFC 4180 reader can recover such cells, so the lemma covers only readable ones. CsvFields carries the same condition.
- CsvLineStructure: requires that no cell holds a line feed. The lemma is about physical lines, and a line feed in a cell, quoted or not, splits one written row across two lines.
- The React components around this logic (`TransactionParser`, `TFSAAccountInfo`, and the rendering in `TransactionDetails` and `Logo`) are presentation only.
- Finding tables in the page and reading rows out of them is not modelled. The code only describes it in comments (src/utils/parseTransaction.ts:50-65, public/content.js:95-96) and never does it.
