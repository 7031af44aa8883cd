# sptrans-transit-extract: the table reshaping, in Dafny

Every run, the extractor polls the São Paulo bus-positioning API ("Olho
Vivo"). The answer's `l` field lists the routes in service. Each route is a
record of seven fields, and the last field is the list of the buses now on
that route. `src/bus.py` reshapes that answer with pandas into one row per bus.

- `format` names the route fields, explodes the bus lists into one row per bus and derives a trip id.
- `extract_bus` splits each bus record into eight named fields and puts them beside the route fields. It then parses the position timestamps and stamps every row with the run's ingestion instant.
- `main` appends nine of the resulting columns to the analytical table.
- `send_pubsub` publishes five of them, with the timestamp rendered as `%Y-%m-%dT%H:%M:%S` text.

This project models that reshaping as pure functions over sequences of rows,
and proves what each step promises.

- `values.dfy` (module `Values`) holds the cells a table can hold. These are the JSON scalars, lists and objects of the answer, plus pandas instants (a calendar date and time with nanoseconds). Any date of the years 1677 to 2262 is allowed, a superset of the range pandas holds, 1677-09-21 to 2262-04-11.
- `text.dfy` (module `Text`) holds the two text renderings the pipeline produces, each with a parser that inverts it:
  - Python's `str()` of an integer (`Decimal` / `ParseDecimal`);
  - strftime `"%Y-%m-%dT%H:%M:%S"` (`IsoSeconds` / `ParseIsoSeconds`).
- `bus.dfy` (module `Bus`) holds everything else:
  - the column labels and the row type of each stage;
  - `format` and `extract_bus` step by step;
  - the pandas column selection `df[names]` and `.dt.strftime`;
  - the export and message projections;
  - the whole reshaping, `Transform` and `Pipeline`.

A DataFrame is a `seq` of rows. Row i is the row with index label i, which is
what every frame in the pipeline has after `reset_index(drop=True)`.

- Failures the program raises are `Err` values of one `Error` datatype:
  - a length mismatch when names are assigned to a table of another width;
  - a TypeError from `direction_id - 1`;
  - the timestamp parser rejecting a value;
  - a KeyError for a missing column;
  - an AttributeError from `.dt` on a column that holds something other than instants and NaT;
  - a non-200 answer.
- The shared `Error` type keeps the failure paths in the model rather than in preconditions.
- `pd.to_datetime` is modelled by `ToDatetime`. A missing value (None, NaN) and the empty string become NaT. Every other value goes to a parameter `parse: Cell -> Parsed`, which gives an instant, NaT or a rejection. In the table, NaT is a missing cell, and `strftime` keeps it missing.
- `datetime.utcnow()` is a parameter `now`.

## Model

| member | source | states |
|---|---|---|
| Bus.RouteColumnsAsWritten | src/bus.py:50 | The labels of the seven route columns are exactly the list `format` assigns. |
| Bus.BusColumnsAsWritten | src/bus.py:61 | The labels of the eight bus columns are exactly the list `extract_bus` assigns. |
| Bus.ExportColumnsAsWritten | src/bus.py:18-19 | The labels of the stored columns are exactly `EXPORT_COLUMNS`, in order. |
| Bus.MessageColumnsAsWritten | src/bus.py:79 | The labels of the published columns are exactly the list `send_pubsub` selects, in order. |
| Bus.LabelsDistinct | src/bus.py:79 | Different columns carry different labels, so a column list without repetitions is a label list without repetitions. |
| Bus.Rename | src/bus.py:50 | Succeeds exactly when there is at least one record and every record has seven fields. Otherwise it fails with a length mismatch between the table width and 7. On success there is one route per record, and its cells are the record's fields in order. |
| Bus.RenamePositional | src/bus.py:50 | The column named by the k-th route label is column k, and it holds every record's k-th field. |
| Bus.Exploded | src/bus.py:52 | Exploding one cell gives the elements of a non-empty list, a single NaN placeholder for an empty list, and the cell itself for a scalar. It always gives at least one row. |
| Bus.Explode | src/bus.py:52 | The exploded table has exactly as many rows as the exploded cells of all routes together (RowsBefore over every route). |
| Bus.ExplodeAt | src/bus.py:52 | Row RowsBefore(i) + j of the exploded table exists. It is route i's six fields with element j of route i's bus list. |
| Bus.Origin | src/bus.py:52 | Every exploded row index k has a source route i and list position j that are in range, with RowsBefore(i) + j = k. |
| Bus.ExplodeFrom | src/bus.py:52 | Every exploded row copies the fields and the bus element of the route it comes from. |
| Bus.ExplodeOrdered | src/bus.py:52 | Exploding keeps the order. For rows k < k2, row k comes from an earlier route, or from the same route and an earlier bus. |
| Bus.ExplodeCount | src/bus.py:52 | When every bus list is a non-empty list, the exploded table has exactly as many rows as there are bus records in all lists. |
| Bus.ExplodeEmptyList | src/bus.py:52 | In any table, a route with an empty bus list gives exactly one row, at RowsBefore of that route, and its bus cell is the NaN placeholder. |
| Bus.ExplodeNumeric | src/bus.py:52-53 | The exploded direction column is numeric exactly when every route's direction is (every route gives at least one row). |
| Text.Decimal | src/bus.py:53 | Python's `str()` of an int starts with a minus sign exactly when the number is negative, and the rest is digits without a leading zero. |
| Bus.Render | src/bus.py:53 | `astype(str)` keeps text as it is, gives an integer's text that reads back as the integer, and gives "True" or "False" for a boolean. |
| Bus.TripIdOf | src/bus.py:53 | The trip id has three parts: the route id's text, then '-', then text that reads back as direction_id - 1. |
| Bus.TripIdSuffix | src/bus.py:53 | The trip id is exactly the route id's text, '-' and the decimal text of direction_id - 1. |
| Bus.TripIdDirections | src/bus.py:53 | Direction 1 gives the suffix "-0" and direction 2 gives "-1". |
| Bus.AddTripIds | src/bus.py:53 | Succeeds exactly when every direction is numeric; otherwise TypeError on direction_id for the whole column. On success rows keep their fields and bus, and gain TripIdOf of their fields. |
| Bus.Format | src/bus.py:49-55 | Succeeds exactly when renaming succeeds and every route's direction is numeric. A rename error passes through, and any other failure is the direction TypeError. The table has one row per exploded bus element, RowsBefore taken over all routes. |
| Bus.FormatAt | src/bus.py:49-55 | Route i's route id is supported and its direction is numeric. Row RowsBefore(i) + j of `format`'s table is route i's fields, element j of its bus list, and the route's trip id. |
| Bus.NameBuses | src/bus.py:60-61 | Succeeds exactly when there is at least one row and every bus record has eight fields. Otherwise it fails with a length mismatch between the bus table width and 8. Each named bus has that record's fields in order. |
| Bus.Concat | src/bus.py:63-66 | Row i has trip i's route fields and trip id beside bus i. Its cells are the six route fields, the trip id and the eight bus fields; there is no "buses" column. |
| Bus.ToDatetime | src/bus.py:68 | A missing value or the empty string converts to NaT, whatever the parser would say. |
| Bus.Converted | src/bus.py:68 | A value that converts becomes an instant cell holding the parsed instant, or a missing cell for NaT, and nothing else. |
| Bus.ParseTimestamps | src/bus.py:68 | Succeeds exactly when no raw timestamp is rejected. Otherwise it reports the first rejected position and its raw value. On success each row's timestamp field is replaced by its converted value (an instant or NaT), and nothing else changes. |
| Bus.Stamp | src/bus.py:69 | Every row is kept unchanged and carries the same single ingestion instant. |
| Bus.ExtractBus | src/bus.py:59-71 | Succeeds exactly when there is a row and every bus record has eight fields with a timestamp that is not rejected. The width error and the timestamp error are both modelled. Row i keeps trip i's route fields and trip id, has its bus fields with the converted timestamp in place of the raw one, and carries `now`. |
| Bus.ExtractBusCells | src/bus.py:59-71 | The cells of row n are the six route fields, the trip id, the eight bus fields with the converted timestamp, and the ingestion instant. |
| Bus.Select | src/bus.py:79 | On a frame with distinct labels, `df[names]` succeeds exactly when every name is a column. Otherwise it raises KeyError for a missing name. It keeps every row, in order, and each cell is the row's cell under that name. |
| Bus.SelectExport | src/bus.py:106 | Selecting EXPORT_COLUMNS from `extract_bus`'s table succeeds, and each row is that position's export row. |
| Bus.Export | src/bus.py:18-19 | The stored frame has exactly the nine export columns, in order, with one row per position in order. Each row is the ingestion time, route id, trip code, direction, bus prefix, accessibility, timestamp, latitude and longitude. |
| Bus.SelectMessage | src/bus.py:79 | Selecting the five message columns gives, for each position in order, trip id, bus prefix, latitude, longitude and timestamp. |
| Bus.Rendered | src/bus.py:80 | `strftime` of an instant is 19 characters that read back as its date and time, and NaT stays missing. |
| Bus.StrftimeColumn | src/bus.py:80 | On a frame with distinct labels, `.dt.strftime` raises KeyError when the column is missing. It raises AttributeError unless every cell of the column is an instant or NaT. Otherwise it replaces each instant with its text, keeps each NaT missing, and leaves the other columns alone. |
| Bus.Message | src/bus.py:79-80 | The published frame has the five message columns and one row per position in order, with the timestamp as text, or missing for NaT. It fails, with AttributeError, exactly when some timestamp is neither an instant nor NaT. |
| Bus.MessageRendered | src/bus.py:80 | On the selected message frame, rendering succeeds exactly when every timestamp is an instant or NaT. Each row then becomes trip id, bus prefix, latitude, longitude and the rendered timestamp. |
| Bus.MessageTimestampText | src/bus.py:80 | Every published timestamp of an instant is a 19-character string that reads back as the instant's date and time to the second. A NaT timestamp is published as a missing value. |
| Text.IsoSeconds | src/bus.py:80 | The rendered timestamp is 19 characters. It has '-', '-', 'T', ':', ':' at positions 4, 7, 10, 13 and 16, and digits everywhere else. |
| Text.IsoSecondsRoundTrip | src/bus.py:80 | Parsing the rendered text gives back year, month, day, hour, minute and second. |
| Text.IsoSecondsInjective | src/bus.py:80 | Two instants render alike exactly when they agree to the second. |
| Text.DecimalRoundTrip | src/bus.py:53 | `str()` of an integer reads back as that integer. |
| Text.DecimalCanonical | src/bus.py:53 | Every text the decimal reader accepts is exactly `str()` of its value. |
| Bus.Transform | src/bus.py:102-103 | `extract_bus(format(df))`: a `format` error passes through. Otherwise it succeeds exactly when every bus record has eight fields and no timestamp is rejected. A formatted table is never empty. Any other width fails with the length mismatch. It has one row per formatted row, each holding an instant or NaT as timestamp, and `now`. |
| Bus.TransformCount | src/bus.py:102-103 | Within `Poll` (every exploded bus cell is a record of one width), a successful reshaping had only non-empty bus lists, and it gives exactly one row per bus record of the answer. |
| Bus.TransformAt | src/bus.py:102-103 | Row RowsBefore(i) + j of the reshaped table holds route i's fields, the route's trip id, the fields of bus j with the converted timestamp, and `now`. |
| Bus.Request | src/bus.py:40-45 | Any status other than 200 fails with that status and the body text. Status 200 passes on the route records. |
| Bus.Pipeline | src/bus.py:98-106 | A non-200 answer reaches neither sink. Otherwise it succeeds exactly when the reshaping does, since in the model rendering the timestamps of a reshaped table cannot fail. The two frames are then exactly `send_pubsub`'s message frame and the `EXPORT_COLUMNS` selection of the reshaped table, with their columns and one row per reshaped row. |

## Left out

- HTTP, Pub/Sub and BigQuery: `create_session`, the request itself, the publisher, `upload`, and the JSON serialisation of the message (`to_dict`, `json.dumps`, ASCII encoding). They are network and cloud I/O. `Request` keeps only the status check, and `Pipeline` returns the two frames instead of sending them.
- `pd.to_datetime`: the formats it accepts belong to pandas. Outside the missing values and the empty string, it is the `parse` parameter, and the first value it rejects fails the column.
- Bus.ParseTimestamps: `parse` decides each value on its own. pandas 2 infers one format from the first non-missing value and then holds every value to it, so a column that mixes formats can be rejected even when each value would parse alone. A parser per column is not modelled.
- `datetime.utcnow()`: a clock read. It is the `now` parameter.
- Building the DataFrame from the JSON array: the records are taken as positional field sequences, and `Poll` requires that they all have the same number of fields. Ragged or keyed records are pandas behaviour.
- Bus.Format: `Supported` is a precondition. It excludes every route id that is not text, an integer or a boolean, and every float or null direction wherever it occurs. Among the cases left out:
  - a null or float route id, which `astype(str)` renders as "None", "nan" or "8000.0"; one null in an integer route-id column turns every id into float text;
  - a list or object route id, which renders as its `str()` (for example "[1, 2]-0");
  - a float or null direction in an otherwise numeric column, which pandas renders as floats (for example "1-0.0");
  - a float or null direction in a column that also holds text, where `direction_id - 1` raises TypeError.
- Bus.TransformCount: holds only within `Poll`. Without it, a route with an empty bus list leaves a NaN bus cell. `json_normalize` then gives an all-missing bus row with a NaT timestamp, and the run succeeds with one row more than there are bus records.
- Bus.TripIdOf: `direction_id - 1` is computed on unbounded integers. The wrap-around of pandas' int64 column at -2^63 is not modelled.
- Bus.Transform: `Poll` requires that every bus cell left after exploding is a record, all with the same number of fields. An empty list's NaN placeholder, a scalar, or records with differing keys would go to `pd.json_normalize`, whose handling of them is library behaviour. Dict-valued bus cells, which pandas explode treats as list-like, are not modelled either.
- `pd.json_normalize` of nested keys: bus records are flat, and their fields are taken in key order.
- Bus.StrftimeColumn, Bus.Message, Bus.MessageRendered, Bus.Pipeline: frames carry no column dtype, so `.dt` is decided from the cells. pandas decides it from the dtype. An object column holding only missing values, or datetimes with mixed UTC offsets (which `to_datetime` returns as an object column), raises AttributeError in pandas. The model accepts the first and cannot express the second. So in pandas `send_pubsub` can fail after a successful reshape, and then `upload` is never reached. The model does not capture that failure.
- Bus.Select and Bus.StrftimeColumn require distinct column labels. With a repeated label pandas returns every column carrying it, which is not modelled. Every frame the pipeline builds has distinct labels (`ToFrame`, `MessageFrame`).
- In-place mutation: the reassignment of `columns`, adding a column, and overwriting `timestamp`. Each is modelled as a function returning the new table.
- The `export_columns` parameter of `extract_bus`: it is unused by the source.
- Latitude and longitude are only copied, never computed with. Cells keep them as reals, so floating point plays no part.
- An empty bus list is not dropped. `DataFrame.explode` leaves one row whose bus cell is NaN (`ExplodeEmptyList`), and the model follows that.
- An answer with no routes makes a table without columns. Naming its columns is then a length mismatch (`Rename`), which the model follows.
