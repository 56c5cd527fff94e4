/**
 * A reader for the CSV text the extension exports, in the quoting convention
 * of RFC 4180: fields end at a comma, records end at a line feed, and a field
 * that opens with `"` runs to the next lone `"`, with `""` inside it standing
 * for one `"` and commas and line feeds inside it taken literally. Anything
 * after a closing quote, up to the next comma or line feed, is kept as is.
 * Unlike RFC 4180 it is lenient: a quoted field left open at the end of the
 * text ends there, and text after a closing quote is accepted.
 * The reader is the partner of the CSV writer: the writer's round-trip
 * lemmas are stated against it.
 */
module CsvReader {
  import opened Wrappers

  /** Reads the inside of a quoted field (after the opening quote); returns the field and what follows the closing quote. */
  function ParseQuoted(s: string): (r: (string, string))
    ensures |r.1| <= |s|
    decreases |s|
  {
    if |s| == 0 then ("", "")
    else if s[0] == '"' then
      if |s| > 1 && s[1] == '"' then
        var (f, after) := ParseQuoted(s[2..]);
        (['"'] + f, after)
      else ("", s[1..])
    else
      var (f, after) := ParseQuoted(s[1..]);
      ([s[0]] + f, after)
  }

  /** What may follow a field: the end of the text, or the comma or line feed that ends it. */
  predicate AtFieldEnd(s: string) {
    s == [] || s[0] == ',' || s[0] == '\n'
  }

  /** Reads up to, not including, the next comma or line feed. */
  function ParseUnquoted(s: string): (r: (string, string))
    ensures r.0 + r.1 == s
    ensures ',' !in r.0 && '\n' !in r.0
    ensures AtFieldEnd(r.1)
    decreases |s|
  {
    if |s| == 0 || s[0] == ',' || s[0] == '\n' then ("", s)
    else
      var (f, rest) := ParseUnquoted(s[1..]);
      ([s[0]] + f, rest)
  }

  /** Reads one field; the remainder is empty or starts with the comma or line feed that ends the field. */
  function ParseField(s: string): (r: (string, string))
    ensures |r.1| <= |s|
    ensures AtFieldEnd(r.1)
  {
    if |s| > 0 && s[0] == '"' then
      var (f, after) := ParseQuoted(s[1..]);
      var (g, rest) := ParseUnquoted(after);
      (f + g, rest)
    else ParseUnquoted(s)
  }

  /** The value a single written cell stands for. */
  function UnescapeCell(e: string): string {
    ParseField(e).0
  }

  /**
   * Reads the fields of one record. The second component is the text after
   * the line feed that ends the record, or None when the record ends the text.
   */
  function ParseRecord(s: string): (r: (seq<string>, Option<string>))
    ensures |r.0| >= 1
    ensures r.1.Some? ==> |r.1.value| < |s|
    decreases |s|
  {
    var (f, rest) := ParseField(s);
    if rest == [] then ([f], None)
    else if rest[0] == ',' then
      var (fs, next) := ParseRecord(rest[1..]);
      ([f] + fs, next)
    else ([f], Some(rest[1..]))
  }

  /** Reads a whole CSV text into records; a text always holds at least one. */
  function ParseCsv(text: string): (records: seq<seq<string>>)
    ensures |records| >= 1
    decreases |text|
  {
    match ParseRecord(text)
    case (fields, None) => [fields]
    case (fields, Some(rest)) => [fields] + ParseCsv(rest)
  }

  /** A field that opens with a quote is its quoted part followed by whatever runs to the next comma or line feed. */
  lemma FieldQuoted(body: string, f: string, after: string)
    requires ParseQuoted(body) == (f, after)
    ensures ParseField(['"'] + body) == (f + ParseUnquoted(after).0, ParseUnquoted(after).1)
  {
    assert (['"'] + body)[1..] == body;
  }

  /** A record whose first field is followed by a comma continues with the fields after that comma. */
  lemma RecordContinues(s: string, f: string, tail: string)
    requires ParseField(s) == (f, [','] + tail)
    ensures ParseRecord(s) == ([f] + ParseRecord(tail).0, ParseRecord(tail).1)
  {
    assert ([','] + tail)[1..] == tail;
  }

  /** A record whose first field is followed by the end of the text or a line feed ends there. */
  lemma RecordEnds(s: string, f: string, rest: string)
    requires ParseField(s) == (f, rest)
    requires rest == [] || rest[0] == '\n'
    ensures ParseRecord(s) == ([f], if rest == [] then None else Some(rest[1..]))
  {
  }

  /** After a record that ends at a line feed, the text goes on with the records that follow it. */
  lemma CsvContinues(text: string, fields: seq<string>, rest: string)
    requires ParseRecord(text) == (fields, Some(rest))
    ensures ParseCsv(text) == [fields] + ParseCsv(rest)
  {
  }

  /** A record that ends the text is the last record. */
  lemma CsvEnds(text: string, fields: seq<string>)
    requires ParseRecord(text) == (fields, None)
    ensures ParseCsv(text) == [fields]
  {
  }
}
