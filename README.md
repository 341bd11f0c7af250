# CSV metadata enrichment: configuration logic, and the field renamer

A Dafny model of two pieces of the StreamPipes processor extensions.

**CSV metadata enrichment controller (`CsvMetadata`).** This is the configuration-time half of the processor that joins events against an uploaded CSV file.
- Option resolution answers the configuration UI's requests for selectable values. For the `fields-to-append` request it offers the CSV header columns other than the chosen match column. For any other request it offers every header column. Header order is kept in both cases, and the list is empty when the file cannot be read.
- Output-schema resolution extends the input stream's property list in place. It appends one guessed property per selected column, sampled from the first data record only. It appends nothing when the file has no data records or cannot be read.

**Field renamer (`Rename`).** The Flink `FieldRenamer` moves the value of one key of an event map to another key, in place. It then emits that same map once.

Modelling choices:
- Reading the file and parsing it are one input, `Result<CsvTable>`. Its `IOException` case is the checked exception that `fileContentsAsString`, the parser or `getRecords` throws.
- The parser's header map is a `HeaderKeys` value: its key set in header order, a sequence without duplicates.
- The type guesser `CsvMetadataEnrichmentUtils.getGuessedEventProperty` is the function parameter `guess`. The event property it builds is the type parameter `P`.
- The input schema's `List<EventProperty>` is the class `PropertyList`. `ResolveOutputStrategy` mutates it, and the `EventSchema` it returns refers to that same list, as in the source.
- The match column is a `string`, so it cannot be null. In the source a null match column fails with a null-pointer exception at line 171.
- A Java map value is `Nullable<V>`. `Null` is what `get` returns for an absent key, and what `flatMap` then stores under the new name.
- The Flink collector is a class that holds the sequence of emitted map references.

- A file that cannot be read gives an empty option list, not an error (lines 113-116 of the controller).
- A table with no data records appends no properties, not an error (line 144).
- A read failure during schema resolution leaves the schema unchanged (lines 132-134).
- A parsed record carries the header keys of its file, so the guesser can read a column's value by name.

## Model

| member | source | states |
|---|---|---|
| CsvMetadata.FilterIgnored | streampipes-processors-transformation-jvm/src/main/java/org/streampipes/processors/transformation/jvm/processor/csvmetadata/CsvMetadataEnrichmentController.java:165-172 | the result is an order-preserving subsequence of the header keys, and a key is in it iff it equals no ignored column |
| CsvMetadata.GetColumnNames | streampipes-processors-transformation-jvm/src/main/java/org/streampipes/processors/transformation/jvm/processor/csvmetadata/CsvMetadataEnrichmentController.java:165-173 | a read failure propagates; otherwise the column names are a duplicate-free, order-preserving subsequence of the header keys holding exactly the keys not ignored |
| CsvMetadata.GetOptionsFromColumnNames | streampipes-processors-transformation-jvm/src/main/java/org/streampipes/processors/transformation/jvm/processor/csvmetadata/CsvMetadataEnrichmentController.java:157-163 | a read failure propagates; otherwise one option per column name, same length and order, each named by its column |
| CsvMetadata.ResolveOptions | streampipes-processors-transformation-jvm/src/main/java/org/streampipes/processors/transformation/jvm/processor/csvmetadata/CsvMetadataEnrichmentController.java:103-117 | empty list when the file cannot be read; all header keys in header order for any request other than fields-to-append; for fields-to-append a duplicate-free subsequence of the header keys holding every key except the match column |
| CsvMetadata.FilterNothingIgnored | streampipes-processors-transformation-jvm/src/main/java/org/streampipes/processors/transformation/jvm/processor/csvmetadata/CsvMetadataEnrichmentController.java:110-111 | with nothing to ignore, the filter returns the header keys unchanged |
| CsvMetadata.FilterOneLength | streampipes-processors-transformation-jvm/src/main/java/org/streampipes/processors/transformation/jvm/processor/csvmetadata/CsvMetadataEnrichmentController.java:107-109 | ignoring only the match column removes exactly one key if it is a header key, and none otherwise |
| CsvMetadata.ColumnNamesUnique | streampipes-processors-transformation-jvm/src/main/java/org/streampipes/processors/transformation/jvm/processor/csvmetadata/CsvMetadataEnrichmentController.java:165-172 | any order-preserving selection of header keys holding exactly the non-ignored keys equals the column names returned |
| CsvMetadata.FieldsToAppendCount | streampipes-processors-transformation-jvm/src/main/java/org/streampipes/processors/transformation/jvm/processor/csvmetadata/CsvMetadataEnrichmentController.java:105-112 | the fields-to-append list is one shorter than the full list exactly when the match column is a header key |
| CsvMetadata.GuessedProperties | streampipes-processors-transformation-jvm/src/main/java/org/streampipes/processors/transformation/jvm/processor/csvmetadata/CsvMetadataEnrichmentController.java:146-148 | one guessed property per column, same length and order, each guessed from the first record |
| CsvMetadata.AppendProperties | streampipes-processors-transformation-jvm/src/main/java/org/streampipes/processors/transformation/jvm/processor/csvmetadata/CsvMetadataEnrichmentController.java:139-151 | a read failure propagates; no data records gives no properties; otherwise one property per selected column in selection order, guessed from the first record |
| CsvMetadata.AppendPropertiesSampleFirstRecord | streampipes-processors-transformation-jvm/src/main/java/org/streampipes/processors/transformation/jvm/processor/csvmetadata/CsvMetadataEnrichmentController.java:143-148 | tables with the same header that share their first data record give the same appended properties, whatever their later records |
| CsvMetadata.MakeEventProperty | streampipes-processors-transformation-jvm/src/main/java/org/streampipes/processors/transformation/jvm/processor/csvmetadata/CsvMetadataEnrichmentController.java:153-155 | the property for a column is the guesser's result for that column name and the first record |
| CsvMetadata.GetAppendProperties | streampipes-processors-transformation-jvm/src/main/java/org/streampipes/processors/transformation/jvm/processor/csvmetadata/CsvMetadataEnrichmentController.java:139-155 | the loop returns exactly the properties specified by AppendProperties |
| CsvMetadata.OutputProperties | streampipes-processors-transformation-jvm/src/main/java/org/streampipes/processors/transformation/jvm/processor/csvmetadata/CsvMetadataEnrichmentController.java:121-136 | the input properties come first and unchanged; the length grows by the number of selected columns only when the file is read and has a data record; a read failure or an empty table leaves exactly the input properties |
| CsvMetadata.PropertyList.AddAll | streampipes-processors-transformation-jvm/src/main/java/org/streampipes/processors/transformation/jvm/processor/csvmetadata/CsvMetadataEnrichmentController.java:131 | the list becomes its old contents followed by the added properties |
| CsvMetadata.ResolveOutputStrategy | streampipes-processors-transformation-jvm/src/main/java/org/streampipes/processors/transformation/jvm/processor/csvmetadata/CsvMetadataEnrichmentController.java:119-137 | the input property list is extended in place to OutputProperties of its old contents, and the fresh schema returned refers to that same list |
| Rename.Lookup | streampipes-processors-transformation-flink/src/main/java/org/streampipes/processors/transformation/flink/processor/rename/FieldRenamer.java:39 | get returns the stored value for a present key and null for an absent one |
| Rename.Renamed | streampipes-processors-transformation-flink/src/main/java/org/streampipes/processors/transformation/flink/processor/rename/FieldRenamer.java:39-41 | the new name maps to the old name's value, or to null if the old name was absent; the old name is gone when the names differ; the key set is the old one minus the old name plus the new name; every other key keeps its value |
| Rename.RenameToSelf | streampipes-processors-transformation-flink/src/main/java/org/streampipes/processors/transformation/flink/processor/rename/FieldRenamer.java:39-41 | renaming a present key to itself leaves the map unchanged |
| Rename.RenameRoundTrip | streampipes-processors-transformation-flink/src/main/java/org/streampipes/processors/transformation/flink/processor/rename/FieldRenamer.java:39-41 | renaming a present key to an absent name and back restores the map |
| Rename.RenameAbsent | streampipes-processors-transformation-flink/src/main/java/org/streampipes/processors/transformation/flink/processor/rename/FieldRenamer.java:39-41 | renaming an absent key adds the new name with a null value and changes nothing else |
| Rename.EventMap.Get | streampipes-processors-transformation-flink/src/main/java/org/streampipes/processors/transformation/flink/processor/rename/FieldRenamer.java:39 | returns the value under the key, or null when the key is absent |
| Rename.EventMap.Remove | streampipes-processors-transformation-flink/src/main/java/org/streampipes/processors/transformation/flink/processor/rename/FieldRenamer.java:40 | the key is removed and nothing else changes |
| Rename.EventMap.Put | streampipes-processors-transformation-flink/src/main/java/org/streampipes/processors/transformation/flink/processor/rename/FieldRenamer.java:41 | the key is bound to the value, overwriting any previous binding |
| Rename.Collector.Collect | streampipes-processors-transformation-flink/src/main/java/org/streampipes/processors/transformation/flink/processor/rename/FieldRenamer.java:42 | the map reference is appended to the emitted sequence |
| Rename.FieldRenamer.constructor | streampipes-processors-transformation-flink/src/main/java/org/streampipes/processors/transformation/flink/processor/rename/FieldRenamer.java:32-35 | both names are stored unchanged |
| Rename.FieldRenamer.FlatMap | streampipes-processors-transformation-flink/src/main/java/org/streampipes/processors/transformation/flink/processor/rename/FieldRenamer.java:36-43 | the input map's contents become Renamed of its old contents; exactly that same map object is emitted once; the renamer's names are not modified |

## Left out

- `declareModel` is a declarative builder chain that describes the processor to the host, so there is nothing to verify in it.
- `onInvocation` only forwards extracted parameters to the runtime.
- The CSV tokenising in `getCsvParser` is not part of this model: the parsed table is an input. The type-guessing rules of `CsvMetadataEnrichmentUtils.getGuessedEventProperty` are not part of this model either: the guesser is a function parameter.
- The per-event enrichment runtime `CsvMetadataEnrichment` is not part of this model.
- ResolveOutputStrategy: it takes the first input stream's property list directly. The lookup `getInputStreams().get(0)` is assumed to succeed.
- ResolveOptions: the match column cannot be null, so the null-pointer exception that a null match column would raise is not modelled.
- Rename.FieldRenamer.FlatMap: keys are non-null strings, so the null key that a Java `HashMap` also accepts is not modelled.
- Printing stack traces on an `IOException` is not modelled. Flink's runtime, serialisation and parallelism are not modelled either.
- `DataLakeInfluxDbClient` is a network client for InfluxDB, so it is not modelled. `Dummy` forwards events unchanged and has no logic, so it is not modelled either.
