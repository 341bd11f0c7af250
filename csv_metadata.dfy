/** Configuration-time logic of the CSV metadata enrichment processor: the
    selectable values offered to the configuration UI, and the output schema
    that appends one guessed property per chosen CSV column. */
module CsvMetadata {
  import opened Sequences

  /** Request id under which the UI asks for the columns that may be appended. */
  const FIELDS_TO_APPEND_KEY: string := "fields-to-append"

  /** Outcome of reading the uploaded file and parsing it; `IOException` is the
      checked exception that reading or parsing throws. */
  datatype Result<T> = Ok(value: T) | IOException

  /** The header-map key set of the parser: the column names in header order,
      each once. */
  type HeaderKeys = s: seq<string> | Distinct(s) witness []

  /** One data record of the CSV file: the values of a row, in column order,
      together with the header keys the parser attaches to it, through which a
      value can be read by column name. */
  datatype CsvRecord = CsvRecord(headerKeys: seq<string>, values: seq<string>)

  /** What the CSV parser yields: the header map's keys and the data records. */
  datatype CsvTable = CsvTable(headerKeys: HeaderKeys, records: seq<CsvRecord>)

  /** A selectable value offered to the configuration UI, named by a column. */
  datatype Option = Option(name: string)

  /** The names of a list of options, in order. */
  function Names(options: seq<Option>): (names: seq<string>)
    ensures |names| == |options|
    ensures forall i :: 0 <= i < |options| ==> names[i] == options[i].name
  {
    seq(|options|, i requires 0 <= i < |options| => options[i].name)
  }

  // ---------------------------------------------------------------------------
  // Option resolution

  /** The header keys that equal none of `columnsToIgnore`, in header order. */
  function FilterIgnored(keys: seq<string>, columnsToIgnore: seq<string>): (r: seq<string>)
    ensures IsSubsequence(r, keys)
    ensures forall k :: k in r <==> k in keys && k !in columnsToIgnore
    decreases |keys|
  {
    if keys == [] then []
    else
      var rest := FilterIgnored(keys[1..], columnsToIgnore);
      if keys[0] in columnsToIgnore then rest
      else
        var r := [keys[0]] + rest;
        assert r[1..] == rest;
        r
  }

  /** The column names of the parsed file minus the ignored ones; reading
      failures propagate. */
  function GetColumnNames(csvFile: Result<CsvTable>, columnsToIgnore: seq<string>): (r: Result<seq<string>>)
    ensures r.IOException? <==> csvFile.IOException?
    ensures r.Ok? ==> IsSubsequence(r.value, csvFile.value.headerKeys) && Distinct(r.value)
    ensures r.Ok? ==> forall k :: k in r.value <==> k in csvFile.value.headerKeys && k !in columnsToIgnore
  {
    match csvFile
    case IOException => IOException
    case Ok(table) =>
      var columns := FilterIgnored(table.headerKeys, columnsToIgnore);
      SubsequenceDistinct(columns, table.headerKeys);
      Ok(columns)
  }

  /** One option per column name returned by `GetColumnNames`, same order. */
  function GetOptionsFromColumnNames(csvFile: Result<CsvTable>, columnsToIgnore: seq<string>): (r: Result<seq<Option>>)
    ensures r.IOException? <==> csvFile.IOException?
    ensures r.Ok? ==> Names(r.value) == GetColumnNames(csvFile, columnsToIgnore).value
  {
    match GetColumnNames(csvFile, columnsToIgnore)
    case IOException => IOException
    case Ok(columns) => Ok(seq(|columns|, i requires 0 <= i < |columns| => Option(columns[i])))
  }

  /** Answers the UI's request `requestId`: for the fields-to-append request the
      header columns other than the chosen match column, for any other request
      all header columns; an empty list when the file cannot be read. */
  function ResolveOptions(requestId: string, csvFile: Result<CsvTable>, matchColumn: string): (r: seq<Option>)
    ensures csvFile.IOException? ==> r == []
    ensures csvFile.Ok? && requestId != FIELDS_TO_APPEND_KEY ==> Names(r) == csvFile.value.headerKeys
    ensures csvFile.Ok? && requestId == FIELDS_TO_APPEND_KEY ==>
      && IsSubsequence(Names(r), csvFile.value.headerKeys)
      && Distinct(Names(r))
      && forall k :: k in Names(r) <==> k in csvFile.value.headerKeys && k != matchColumn
  {
    var ignored := if requestId == FIELDS_TO_APPEND_KEY then [matchColumn] else [];
    match GetOptionsFromColumnNames(csvFile, ignored)
    case IOException => []
    case Ok(options) =>
      if requestId != FIELDS_TO_APPEND_KEY then FilterNothingIgnored(csvFile.value.headerKeys); options
      else options
  }

  /** Filtering with nothing to ignore keeps every key. */
  lemma {:induction false} FilterNothingIgnored(keys: seq<string>)
    ensures FilterIgnored(keys, []) == keys
  {
    if keys != [] {
      FilterNothingIgnored(keys[1..]);
      assert keys == [keys[0]] + keys[1..];
    }
  }

  /** With duplicate-free keys, ignoring one column removes exactly one entry
      when the column is a key and none otherwise. */
  lemma {:induction false} FilterOneLength(keys: seq<string>, column: string)
    requires Distinct(keys)
    ensures |FilterIgnored(keys, [column])| == if column in keys then |keys| - 1 else |keys|
  {
    if keys != [] {
      var rest := keys[1..];
      assert Distinct(rest) by {
        forall i, j | 0 <= i < j < |rest| ensures rest[i] != rest[j] {
          assert rest[i] == keys[i + 1] && rest[j] == keys[j + 1];
        }
      }
      FilterOneLength(rest, column);
      if keys[0] == column {
        assert column !in rest by {
          forall k | 0 <= k < |rest| ensures rest[k] != column { assert rest[k] == keys[k + 1]; }
        }
      } else {
        assert column in keys <==> column in rest by {
          assert keys == [keys[0]] + rest;
        }
      }
    }
  }

  /** The filter result is the only order-preserving selection of header keys
      holding exactly the keys that are not ignored. */
  lemma ColumnNamesUnique(table: CsvTable, columnsToIgnore: seq<string>, columns: seq<string>)
    requires IsSubsequence(columns, table.headerKeys)
    requires forall k :: k in columns <==> k in table.headerKeys && k !in columnsToIgnore
    ensures GetColumnNames(Ok(table), columnsToIgnore) == Ok(columns)
  {
    var r := FilterIgnored(table.headerKeys, columnsToIgnore);
    SubsequenceUnique(columns, r, table.headerKeys);
  }

  /** The fields-to-append options are the full option list with the match
      column left out: one fewer exactly when the match column is a header key. */
  lemma FieldsToAppendCount(csvFile: Result<CsvTable>, otherRequest: string, matchColumn: string)
    requires csvFile.Ok? && otherRequest != FIELDS_TO_APPEND_KEY
    ensures |ResolveOptions(FIELDS_TO_APPEND_KEY, csvFile, matchColumn)|
         == |ResolveOptions(otherRequest, csvFile, matchColumn)| - (if matchColumn in csvFile.value.headerKeys then 1 else 0)
  {
    FilterOneLength(csvFile.value.headerKeys, matchColumn);
    assert |Names(ResolveOptions(otherRequest, csvFile, matchColumn))| == |csvFile.value.headerKeys|;
  }

  // ---------------------------------------------------------------------------
  // Output-schema resolution

  /** One guessed property per column, in column order, each guessed from
      `firstRecord` alone. */
  function GuessedProperties<P>(columns: seq<string>, firstRecord: CsvRecord, guess: (string, CsvRecord) -> P): (r: seq<P>)
    ensures |r| == |columns|
    ensures forall i :: 0 <= i < |columns| ==> r[i] == guess(columns[i], firstRecord)
    decreases |columns|
  {
    if columns == [] then []
    else [guess(columns[0], firstRecord)] + GuessedProperties(columns[1..], firstRecord, guess)
  }

  /** The properties to append for `columnsToInclude`: none when the file has
      no data record, one guessed property per column otherwise; reading
      failures propagate. */
  function AppendProperties<P>(csvFile: Result<CsvTable>, columnsToInclude: seq<string>, guess: (string, CsvRecord) -> P): (r: Result<seq<P>>)
    ensures r.IOException? <==> csvFile.IOException?
    ensures r.Ok? && csvFile.value.records == [] ==> r.value == []
    ensures r.Ok? && csvFile.value.records != [] ==>
      && |r.value| == |columnsToInclude|
      && forall i :: 0 <= i < |columnsToInclude| ==> r.value[i] == guess(columnsToInclude[i], csvFile.value.records[0])
  {
    match csvFile
    case IOException => IOException
    case Ok(table) =>
      if |table.records| > 0 then Ok(GuessedProperties(columnsToInclude, table.records[0], guess)) else Ok([])
  }

  /** Only the first data record is sampled: tables with the same header that
      agree on it (and on having one) give the same properties, whatever their
      later records. */
  lemma AppendPropertiesSampleFirstRecord<P>(t1: CsvTable, t2: CsvTable, columnsToInclude: seq<string>, guess: (string, CsvRecord) -> P)
    requires t1.headerKeys == t2.headerKeys
    requires t1.records != [] && t2.records != [] && t1.records[0] == t2.records[0]
    ensures AppendProperties(Ok(t1), columnsToInclude, guess) == AppendProperties(Ok(t2), columnsToInclude, guess)
  {
  }

  /** The loop that builds the list of properties to append. */
  method GetAppendProperties<P>(csvFile: Result<CsvTable>, columnsToInclude: seq<string>, guess: (string, CsvRecord) -> P)
    returns (r: Result<seq<P>>)
    ensures r == AppendProperties(csvFile, columnsToInclude, guess)
  {
    if csvFile.IOException? {
      return IOException;
    }
    var records := csvFile.value.records;
    var propertiesToAppend: seq<P> := [];
    if |records| > 0 {
      var firstRecord := records[0];
      for i := 0 to |columnsToInclude|
        invariant |propertiesToAppend| == i
        invariant forall j :: 0 <= j < i ==> propertiesToAppend[j] == guess(columnsToInclude[j], firstRecord)
      {
        propertiesToAppend := propertiesToAppend + [MakeEventProperty(columnsToInclude[i], firstRecord, guess)];
      }
      assert propertiesToAppend == GuessedProperties(columnsToInclude, firstRecord, guess);
    }
    r := Ok(propertiesToAppend);
  }

  /** The guessed property for one column: the guesser applied to the column
      name and the first record. */
  function MakeEventProperty<P>(column: string, firstRecord: CsvRecord, guess: (string, CsvRecord) -> P): (r: P)
    ensures r == guess(column, firstRecord)
  {
    guess(column, firstRecord)
  }

  /** The output schema's property list: the input properties followed by the
      appended ones, or the input properties alone when the file cannot be read. */
  function OutputProperties<P>(input: seq<P>, csvFile: Result<CsvTable>, columnsToInclude: seq<string>, guess: (string, CsvRecord) -> P): (r: seq<P>)
    ensures |r| == |input| + (if csvFile.Ok? && csvFile.value.records != [] then |columnsToInclude| else 0)
    ensures r[..|input|] == input
    ensures csvFile.IOException? || csvFile.value.records == [] ==> r == input
    ensures csvFile.Ok? && csvFile.value.records != [] ==>
      forall i :: 0 <= i < |columnsToInclude| ==> r[|input| + i] == guess(columnsToInclude[i], csvFile.value.records[0])
  {
    match AppendProperties(csvFile, columnsToInclude, guess)
    case IOException => input
    case Ok(appended) => input + appended
  }

  /** The property list of the processor's input event schema, which the
      output-schema resolution extends in place. */
  class PropertyList<P> {
    var items: seq<P>

    constructor (items: seq<P>)
      ensures this.items == items
    {
      this.items := items;
    }

    /** Appends all of `more`, in order. */
    method AddAll(more: seq<P>)
      modifies this
      ensures items == old(items) + more
    {
      items := items + more;
    }
  }

  /** An event schema; it holds a reference to its property list. */
  class EventSchema<P> {
    const eventProperties: PropertyList<P>

    constructor (eventProperties: PropertyList<P>)
      ensures this.eventProperties == eventProperties
    {
      this.eventProperties := eventProperties;
    }
  }

  /** Extends the first input stream's property list with the guessed
      properties of `columnsToInclude` and returns a schema over that same list.
      A reading failure leaves the list as it was. */
  method ResolveOutputStrategy<P>(properties: PropertyList<P>, columnsToInclude: seq<string>,
                                  csvFile: Result<CsvTable>, guess: (string, CsvRecord) -> P)
    returns (schema: EventSchema<P>)
    modifies properties
    ensures fresh(schema) && schema.eventProperties == properties
    ensures properties.items == OutputProperties(old(properties.items), csvFile, columnsToInclude, guess)
  {
    var appended := GetAppendProperties(csvFile, columnsToInclude, guess);
    if appended.Ok? {
      properties.AddAll(appended.value);
    }
    schema := new EventSchema(properties);
  }
}
