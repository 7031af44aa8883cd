/**
 * The table reshaping of the bus-position extractor: `format` (name the
 * route fields, explode the bus lists, derive the trip id), `extract_bus`
 * (name the bus fields, put them beside the route fields, parse the position
 * timestamps, stamp the ingestion time) and the two column selections that
 * feed the message topic and the analytical table.
 *
 * A DataFrame is a sequence of rows; row i is the row at index label i, which
 * is what every frame here has after `reset_index(drop=True)`. The clock read
 * and pandas' timestamp parser are parameters.
 */
module Bus {
  import opened Values
  import opened Text

  // ----------------------------------------------------------------------
  // Column labels

  /** The column labels the pipeline uses; Label gives each one's text. */
  datatype Column =
    | RouteId | TripCode | DirectionId | To | From | BusCount | Buses | TripId
    | BusPrefix | B | IsAccessible | Timestamp | Lat | Lon | Sv | Is | IngestionTime
  {
    function Label(): string {
      match this
      case RouteId => "route_id"
      case TripCode => "trip_code"
      case DirectionId => "direction_id"
      case To => "to"
      case From => "from"
      case BusCount => "bus_count"
      case Buses => "buses"
      case TripId => "trip_id"
      case BusPrefix => "bus_prefix"
      case B => "b"
      case IsAccessible => "is_accessible"
      case Timestamp => "timestamp"
      case Lat => "lat"
      case Lon => "lon"
      case Sv => "sv"
      case Is => "is"
      case IngestionTime => "ingestion_time"
    }

    /** The column's place in the declaration above. */
    function Rank(): nat {
      match this
      case RouteId => 0
      case TripCode => 1
      case DirectionId => 2
      case To => 3
      case From => 4
      case BusCount => 5
      case Buses => 6
      case TripId => 7
      case BusPrefix => 8
      case B => 9
      case IsAccessible => 10
      case Timestamp => 11
      case Lat => 12
      case Lon => 13
      case Sv => 14
      case Is => 15
      case IngestionTime => 16
    }
  }

  /** The text labels of a sequence of columns, as pandas holds them. */
  function Labels(cs: seq<Column>): seq<string> {
    seq(|cs|, k requires 0 <= k < |cs| => cs[k].Label())
  }

  /** Two columns carry the same label only when they are the same column. */
  lemma LabelInjective(a: Column, b: Column)
    ensures a.Label() == b.Label() ==> a == b
  {
    if a.Label() == b.Label() {
      assert a.Label()[0] == b.Label()[0] && |a.Label()| == |b.Label()|;
    }
  }

  /** A column sequence without repetitions has labels without repetitions. */
  lemma LabelsDistinct(cs: seq<Column>)
    requires Distinct(cs)
    ensures forall k, m :: 0 <= k < m < |cs| ==> Labels(cs)[k] != Labels(cs)[m]
  {
    forall k, m | 0 <= k < m < |cs|
      ensures Labels(cs)[k] != Labels(cs)[m]
    {
      LabelInjective(cs[k], cs[m]);
    }
  }

  /** The names `format` gives the seven positional route fields. */
  const ROUTE_COLUMNS: seq<Column> := [RouteId, TripCode, DirectionId, To, From, BusCount, Buses]

  /** The names `extract_bus` gives the eight positional bus fields. */
  const BUS_COLUMNS: seq<Column> := [BusPrefix, B, IsAccessible, Timestamp, Lat, Lon, Sv, Is]

  /**
   * The columns of the table `extract_bus` returns, in order: the route
   * columns without "buses", the trip id `format` appended, the bus columns
   * (the converted timestamp, an instant or NaT, replaces the raw one in
   * place), the ingestion time.
   */
  const POSITION_COLUMNS: seq<Column> :=
    [RouteId, TripCode, DirectionId, To, From, BusCount, TripId,
     BusPrefix, B, IsAccessible, Timestamp, Lat, Lon, Sv, Is, IngestionTime]

  /** The columns appended to the analytical table, in order. */
  const EXPORT_COLUMNS: seq<Column> :=
    [IngestionTime, RouteId, TripCode, DirectionId, BusPrefix, IsAccessible, Timestamp, Lat, Lon]

  /** The columns published on the message topic, in order. */
  const MESSAGE_COLUMNS: seq<Column> := [TripId, BusPrefix, Lat, Lon, Timestamp]

  /** The labels `format` assigns to the route fields, as the program writes them. */
  lemma RouteColumnsAsWritten()
    ensures Labels(ROUTE_COLUMNS)
            == ["route_id", "trip_code", "direction_id", "to", "from", "bus_count", "buses"]
  {
    var ls := Labels(ROUTE_COLUMNS);
    assert ls[0] == "route_id" && ls[1] == "trip_code" && ls[2] == "direction_id";
    assert ls[3] == "to" && ls[4] == "from" && ls[5] == "bus_count" && ls[6] == "buses";
  }

  /** The labels `extract_bus` assigns to the bus fields, as the program writes them. */
  lemma BusColumnsAsWritten()
    ensures Labels(BUS_COLUMNS)
            == ["bus_prefix", "b", "is_accessible", "timestamp", "lat", "lon", "sv", "is"]
  {
    var ls := Labels(BUS_COLUMNS);
    assert ls[0] == "bus_prefix" && ls[1] == "b" && ls[2] == "is_accessible" && ls[3] == "timestamp";
    assert ls[4] == "lat" && ls[5] == "lon" && ls[6] == "sv" && ls[7] == "is";
  }

  /** The stored columns, as the program's EXPORT_COLUMNS writes them. */
  lemma ExportColumnsAsWritten()
    ensures Labels(EXPORT_COLUMNS)
            == ["ingestion_time", "route_id", "trip_code", "direction_id",
                "bus_prefix", "is_accessible", "timestamp", "lat", "lon"]
  {
    var ls := Labels(EXPORT_COLUMNS);
    assert ls[0] == "ingestion_time" && ls[1] == "route_id" && ls[2] == "trip_code";
    assert ls[3] == "direction_id" && ls[4] == "bus_prefix" && ls[5] == "is_accessible";
    assert ls[6] == "timestamp" && ls[7] == "lat" && ls[8] == "lon";
  }

  /** The published columns, as `send_pubsub` writes them. */
  lemma MessageColumnsAsWritten()
    ensures Labels(MESSAGE_COLUMNS) == ["trip_id", "bus_prefix", "lat", "lon", "timestamp"]
  {
    var ls := Labels(MESSAGE_COLUMNS);
    assert ls[0] == "trip_id" && ls[1] == "bus_prefix" && ls[2] == "lat";
    assert ls[3] == "lon" && ls[4] == "timestamp";
  }

  // ----------------------------------------------------------------------
  // Errors and tables

  datatype Error =
    | LengthMismatch(actual: nat, expected: nat)  // names assigned to a table of another width
    | TypeError(column: Column)                   // arithmetic on a column that is not numeric
    | TimestampError(position: nat, raw: Cell)    // the timestamp parser rejected a value
    | KeyError(column: Column)                    // a selected column is missing
    | AttributeError(column: Column)              // .dt on a column not of instants and NaT
    | FetchError(status: int, text: string)       // the API answered with another status than 200

  datatype Result<T> = Ok(value: T) | Err(error: Error)

  /** A DataFrame in general: column labels and rows of cells. */
  datatype Frame = Frame(columns: seq<Column>, rows: seq<seq<Cell>>)

  predicate Distinct(names: seq<Column>) {
    forall i, j :: 0 <= i < j < |names| ==> names[i] != names[j]
  }

  predicate Rectangular(f: Frame) {
    forall i :: 0 <= i < |f.rows| ==> |f.rows[i]| == |f.columns|
  }

  /** Position of the first column with the given label. */
  function IndexOf(columns: seq<Column>, name: Column): (k: Option<nat>)
    ensures k.None? <==> name !in columns
    ensures k.Some? ==> k.value < |columns| && columns[k.value] == name
  {
    if columns == [] then None
    else
      var init := columns[..|columns| - 1];
      assert name in columns <==> name in init || columns[|columns| - 1] == name;
      match IndexOf(init, name)
      case Some(k) => Some(k)
      case None => if columns[|columns| - 1] == name then Some(|columns| - 1) else None
  }

  /** No column before the one found carries the label. */
  lemma {:induction false} IndexOfFound(columns: seq<Column>, name: Column)
    ensures IndexOf(columns, name).Some? ==>
              forall j :: 0 <= j < IndexOf(columns, name).value ==> columns[j] != name
  {
    if columns != [] {
      var init := columns[..|columns| - 1];
      IndexOfFound(init, name);
      if IndexOf(init, name).Some? {
        assert forall j :: 0 <= j < IndexOf(init, name).value ==> columns[j] == init[j];
      } else {
        assert forall j :: 0 <= j < |init| ==> init[j] != name;
        assert forall j :: 0 <= j < |init| ==> columns[j] == init[j];
      }
    }
  }

  /** A label at position k and at no earlier position is found at k. */
  lemma IndexAt(columns: seq<Column>, name: Column, k: nat)
    requires k < |columns| && columns[k] == name
    requires forall j :: 0 <= j < k ==> columns[j] != name
    ensures IndexOf(columns, name) == Some(k)
  {
    IndexOfFound(columns, name);
  }

  lemma IndexOfDistinct(columns: seq<Column>, k: nat)
    requires Distinct(columns) && k < |columns|
    ensures IndexOf(columns, columns[k]) == Some(k)
  {
    IndexOfFound(columns, columns[k]);
  }

  // ----------------------------------------------------------------------
  // Rows at each stage

  /** The six route fields every output row keeps. */
  datatype RouteInfo = RouteInfo(routeId: Cell, tripCode: Cell, directionId: Cell,
                                 to: Cell, from: Cell, busCount: Cell)
  {
    function Cells(): (cs: seq<Cell>)
      ensures |cs| == 6
    {
      [routeId, tripCode, directionId, to, from, busCount]
    }
  }

  /** A route row of the named table; `buses` holds the route's list of bus records. */
  datatype Route = Route(info: RouteInfo, buses: Cell)
  {
    function Cells(): (cs: seq<Cell>)
      ensures |cs| == |ROUTE_COLUMNS|
    {
      info.Cells() + [buses]
    }
  }

  /** A row of the exploded table: one element of a route's bus list. */
  datatype FlatRow = FlatRow(info: RouteInfo, bus: Cell)

  /** A row of the table `format` returns. */
  datatype Trip = Trip(info: RouteInfo, bus: Cell, tripId: string)

  /** The eight named bus fields; `b`, `sv` and `is` are named but never used. */
  datatype BusInfo = BusInfo(busPrefix: Cell, b: Cell, isAccessible: Cell, timestamp: Cell,
                             lat: Cell, lon: Cell, sv: Cell, isField: Cell)
  {
    function Cells(): (cs: seq<Cell>)
      ensures |cs| == |BUS_COLUMNS|
    {
      [busPrefix, b, isAccessible, timestamp, lat, lon, sv, isField]
    }
  }

  /** A row of the concatenated table: route fields, trip id and bus fields. */
  datatype Joined = Joined(info: RouteInfo, tripId: string, bus: BusInfo)
  {
    function Cells(): (cs: seq<Cell>)
      ensures |cs| == 15
    {
      info.Cells() + [Str(tripId)] + bus.Cells()
    }
  }

  /** A row of the table `extract_bus` returns. */
  datatype Position = Position(row: Joined, ingestionTime: Instant)
  {
    function Cells(): (cs: seq<Cell>)
      ensures |cs| == |POSITION_COLUMNS|
    {
      row.Cells() + [Time(ingestionTime)]
    }
  }

  // ----------------------------------------------------------------------
  // format: naming the route fields

  /** Number of columns of the table pandas builds from the records (none for no records). */
  function Width(records: seq<seq<Cell>>): nat {
    if records == [] then 0 else |records[0]|
  }

  /** Every record has as many fields as the table has columns. */
  predicate SameArity(records: seq<seq<Cell>>) {
    forall i :: 0 <= i < |records| ==> |records[i]| == Width(records)
  }

  function RouteOf(fields: seq<Cell>): (r: Route)
    requires |fields| == |ROUTE_COLUMNS|
    ensures r.Cells() == fields
  {
    Route(RouteInfo(fields[0], fields[1], fields[2], fields[3], fields[4], fields[5]), fields[6])
  }

  /**
   * `info_df.columns = [...]`: the table must be exactly seven columns wide,
   * otherwise pandas raises a length mismatch; a table built from no records
   * has no columns at all. The names go to the fields by position.
   */
  function Rename(records: seq<seq<Cell>>): (r: Result<seq<Route>>)
    requires SameArity(records)
    ensures r.Ok? <==> |records| > 0 && forall i :: 0 <= i < |records| ==> |records[i]| == 7
    ensures r.Err? ==> r.error == LengthMismatch(Width(records), |ROUTE_COLUMNS|)
    ensures r.Ok? ==> |r.value| == |records|
    ensures r.Ok? ==> forall i :: 0 <= i < |records| ==> r.value[i].Cells() == records[i]
  {
    if Width(records) != |ROUTE_COLUMNS| then Err(LengthMismatch(Width(records), |ROUTE_COLUMNS|))
    else Ok(seq(|records|, i requires 0 <= i < |records| => RouteOf(records[i])))
  }

  /** After renaming, the column called ROUTE_COLUMNS[k] holds the record's k-th field. */
  lemma RenamePositional(records: seq<seq<Cell>>, i: nat, k: nat)
    requires SameArity(records) && Rename(records).Ok?
    requires i < |records| && k < |ROUTE_COLUMNS|
    ensures IndexOf(ROUTE_COLUMNS, ROUTE_COLUMNS[k]) == Some(k)
    ensures Rename(records).value[i].Cells()[k] == records[i][k]
  {
    IndexOfDistinct(ROUTE_COLUMNS, k);
  }

  // ----------------------------------------------------------------------
  // format: exploding the bus lists

  /**
   * What DataFrame.explode makes of one cell: the elements of a list, one NaN
   * placeholder for an empty list, the cell itself for any other scalar.
   * (A dict cell is list-like to pandas but cannot be indexed; not modelled.)
   */
  function Exploded(c: Cell): (items: seq<Cell>)
    requires !c.Record?
    ensures |items| >= 1
    ensures c.List? && c.items != [] ==> items == c.items
    ensures c == List([]) ==> items == [Null]
    ensures !c.List? ==> items == [c]
  {
    match c
    case List(xs) => if xs == [] then [Null] else xs
    case _ => [c]
  }

  predicate Explodable(routes: seq<Route>) {
    forall i :: 0 <= i < |routes| ==> !routes[i].buses.Record?
  }

  /** Number of exploded rows the first i routes give. */
  function RowsBefore(routes: seq<Route>, i: nat): nat
    requires i <= |routes| && Explodable(routes)
  {
    if i == 0 then 0 else |Exploded(routes[0].buses)| + RowsBefore(routes[1..], i - 1)
  }

  function ExplodeRoute(r: Route): (rows: seq<FlatRow>)
    requires !r.buses.Record?
    ensures |rows| == |Exploded(r.buses)|
  {
    var items := Exploded(r.buses);
    seq(|items|, j requires 0 <= j < |items| => FlatRow(r.info, items[j]))
  }

  /** `info_df.explode('buses').reset_index(drop=True)`. */
  function Explode(routes: seq<Route>): (rows: seq<FlatRow>)
    requires Explodable(routes)
    ensures |rows| == RowsBefore(routes, |routes|)
  {
    if routes == [] then [] else ExplodeRoute(routes[0]) + Explode(routes[1..])
  }

  /** Row RowsBefore(i) + j of the exploded table is route i's fields with its j-th bus. */
  lemma {:induction false} ExplodeAt(routes: seq<Route>, i: nat, j: nat)
    requires Explodable(routes) && i < |routes| && j < |Exploded(routes[i].buses)|
    ensures RowsBefore(routes, i) + j < |Explode(routes)|
    ensures Explode(routes)[RowsBefore(routes, i) + j]
            == FlatRow(routes[i].info, Exploded(routes[i].buses)[j])
  {
    if i > 0 {
      ExplodeAt(routes[1..], i - 1, j);
      assert routes[1..][i - 1] == routes[i];
    }
  }

  /** The route and the bus within its list that exploded row k comes from. */
  function Origin(routes: seq<Route>, k: nat): (o: (nat, nat))
    requires Explodable(routes) && k < RowsBefore(routes, |routes|)
    ensures o.0 < |routes| && o.1 < |Exploded(routes[o.0].buses)|
    ensures RowsBefore(routes, o.0) + o.1 == k
  {
    var w := |Exploded(routes[0].buses)|;
    if k < w then (0, k)
    else
      var o := Origin(routes[1..], k - w);
      assert routes[1..][o.0] == routes[o.0 + 1];
      (o.0 + 1, o.1)
  }

  /** Every exploded row copies the fields of the route it comes from. */
  lemma ExplodeFrom(routes: seq<Route>, k: nat)
    requires Explodable(routes) && k < |Explode(routes)|
    ensures Explode(routes)[k]
            == FlatRow(routes[Origin(routes, k).0].info,
                       Exploded(routes[Origin(routes, k).0].buses)[Origin(routes, k).1])
  {
    var o := Origin(routes, k);
    ExplodeAt(routes, o.0, o.1);
  }

  lemma {:induction false} RowsBeforeGrows(routes: seq<Route>, i: nat, i2: nat)
    requires Explodable(routes) && i < i2 <= |routes|
    ensures RowsBefore(routes, i) + |Exploded(routes[i].buses)| <= RowsBefore(routes, i2)
  {
    if i > 0 {
      RowsBeforeGrows(routes[1..], i - 1, i2 - 1);
      assert routes[1..][i - 1] == routes[i];
    }
  }

  /**
   * Exploding keeps the order: rows come route by route in input order and,
   * within a route, bus by bus in list order.
   */
  lemma ExplodeOrdered(routes: seq<Route>, k: nat, k2: nat)
    requires Explodable(routes) && k < k2 < |Explode(routes)|
    ensures Origin(routes, k).0 < Origin(routes, k2).0
            || (Origin(routes, k).0 == Origin(routes, k2).0 && Origin(routes, k).1 < Origin(routes, k2).1)
  {
    var o, o2 := Origin(routes, k), Origin(routes, k2);
    if o2.0 < o.0 {
      RowsBeforeGrows(routes, o2.0, o.0);
    }
  }

  /** Number of bus records in the routes' lists. */
  function BusTotal(routes: seq<Route>): nat {
    if routes == [] then 0
    else (if routes[0].buses.List? then |routes[0].buses.items| else 0) + BusTotal(routes[1..])
  }

  predicate NonEmptyBusLists(routes: seq<Route>) {
    forall i :: 0 <= i < |routes| ==> routes[i].buses.List? && routes[i].buses.items != []
  }

  /** With no empty bus list, exploding gives one row per bus record: none dropped, none doubled. */
  lemma {:induction false} ExplodeCount(routes: seq<Route>)
    requires NonEmptyBusLists(routes)
    ensures Explodable(routes) && |Explode(routes)| == BusTotal(routes)
  {
    if routes != [] {
      ExplodeCount(routes[1..]);
    }
  }

  /** The routes up to and including route i give route i's rows after those before it. */
  lemma {:induction false} RowsBeforeStep(routes: seq<Route>, i: nat)
    requires Explodable(routes) && i < |routes|
    ensures RowsBefore(routes, i + 1) == RowsBefore(routes, i) + |Exploded(routes[i].buses)|
  {
    if i > 0 {
      RowsBeforeStep(routes[1..], i - 1);
      assert routes[1..][i - 1] == routes[i];
    }
  }

  /**
   * A route with an empty bus list still gives exactly one row, whose bus
   * cell is the NaN placeholder.
   */
  lemma ExplodeEmptyList(routes: seq<Route>, i: nat)
    requires Explodable(routes) && i < |routes| && routes[i].buses == List([])
    ensures RowsBefore(routes, i + 1) == RowsBefore(routes, i) + 1
    ensures RowsBefore(routes, i) < |Explode(routes)|
    ensures Explode(routes)[RowsBefore(routes, i)] == FlatRow(routes[i].info, Null)
  {
    RowsBeforeStep(routes, i);
    ExplodeAt(routes, i, 0);
  }

  // ----------------------------------------------------------------------
  // format: the trip id

  /** A cell of a column whose str() the model renders: text, integer or boolean. */
  predicate Renderable(c: Cell) {
    c.Str? || c.Int? || c.Bool?
  }

  /** Python's str() of such a cell. */
  function Render(c: Cell): (s: string)
    requires Renderable(c)
    ensures c.Str? ==> s == c.s
    ensures c.Int? ==> ParseDecimal(s) == Some(c.i)
    ensures c.Bool? ==> s == if c.b then "True" else "False"
  {
    match c
    case Str(s) => s
    case Int(i) => DecimalRoundTrip(i); Decimal(i)
    case Bool(b) => if b then "True" else "False"
  }

  /** A cell `- 1` turns into an integer: an integer, or a boolean counted as 0 or 1. */
  predicate Numeric(c: Cell) {
    c.Int? || c.Bool?
  }

  function NumberOf(c: Cell): int
    requires Numeric(c)
  {
    if c.Int? then c.i else if c.b then 1 else 0
  }

  /**
   * The route fields the trip-id step is modelled for: a renderable route id
   * and a direction that is not a float or null (those make the column a float
   * column, which str() renders as "0.0").
   */
  predicate Supported(info: RouteInfo) {
    Renderable(info.routeId) && !info.directionId.Null? && !info.directionId.Num?
  }

  /**
   * `str(route_id) + '-' + str(direction_id - 1)`: the route id's text, a
   * dash, and text that reads back as the direction minus one.
   */
  function TripIdOf(info: RouteInfo): (id: string)
    requires Supported(info) && Numeric(info.directionId)
    ensures |id| > |Render(info.routeId)|
    ensures id[..|Render(info.routeId)|] == Render(info.routeId)
    ensures id[|Render(info.routeId)|] == '-'
    ensures ParseDecimal(id[|Render(info.routeId)| + 1..]) == Some(NumberOf(info.directionId) - 1)
  {
    var prefix := Render(info.routeId);
    var suffix := Decimal(NumberOf(info.directionId) - 1);
    DecimalRoundTrip(NumberOf(info.directionId) - 1);
    assert (prefix + "-" + suffix)[|prefix| + 1..] == suffix;
    prefix + "-" + suffix
  }

  /** The text after the dash is exactly the decimal text of direction minus one. */
  lemma TripIdSuffix(info: RouteInfo)
    requires Supported(info) && Numeric(info.directionId)
    ensures TripIdOf(info) == Render(info.routeId) + "-" + Decimal(NumberOf(info.directionId) - 1)
  {
    var id, p := TripIdOf(info), Render(info.routeId);
    DecimalCanonical(id[|p| + 1..]);
    assert id == id[..|p|] + [id[|p|]] + id[|p| + 1..];
  }

  /** Direction 1 gives the suffix "0", direction 2 the suffix "1". */
  lemma TripIdDirections(info: RouteInfo)
    requires Renderable(info.routeId)
    ensures info.directionId == Int(1) ==> TripIdOf(info) == Render(info.routeId) + "-0"
    ensures info.directionId == Int(2) ==> TripIdOf(info) == Render(info.routeId) + "-1"
  {
    if Numeric(info.directionId) {
      TripIdSuffix(info);
    }
  }

  predicate DirectionsNumeric(rows: seq<FlatRow>) {
    forall i :: 0 <= i < |rows| ==> Numeric(rows[i].info.directionId)
  }

  /**
   * `trips_df['trip_id'] = ...`: the subtraction is done on the whole
   * direction column, so one non-numeric direction fails the step.
   */
  function AddTripIds(rows: seq<FlatRow>): (r: Result<seq<Trip>>)
    requires forall i :: 0 <= i < |rows| ==> Supported(rows[i].info)
    ensures r.Ok? <==> DirectionsNumeric(rows)
    ensures r.Err? ==> r.error == TypeError(DirectionId)
    ensures r.Ok? ==> |r.value| == |rows|
    ensures r.Ok? ==> forall i :: 0 <= i < |rows| ==>
              r.value[i].info == rows[i].info && r.value[i].bus == rows[i].bus
              && r.value[i].tripId == TripIdOf(rows[i].info)
  {
    if DirectionsNumeric(rows) then
      Ok(seq(|rows|, i requires 0 <= i < |rows| => Trip(rows[i].info, rows[i].bus, TripIdOf(rows[i].info))))
    else Err(TypeError(DirectionId))
  }

  /** The routes `format` is modelled for (see README, "Left out"). */
  predicate RoutesSupported(routes: seq<Route>) {
    forall i :: 0 <= i < |routes| ==> Supported(routes[i].info) && !routes[i].buses.Record?
  }

  lemma ExplodeSupported(routes: seq<Route>)
    requires RoutesSupported(routes)
    ensures Explodable(routes)
    ensures forall k :: 0 <= k < |Explode(routes)| ==> Supported(Explode(routes)[k].info)
  {
    forall k | 0 <= k < |Explode(routes)|
      ensures Supported(Explode(routes)[k].info)
    {
      ExplodeFrom(routes, k);
    }
  }

  /** Every route gives at least one row, so the exploded directions are numeric iff the routes' are. */
  lemma ExplodeNumeric(routes: seq<Route>)
    requires Explodable(routes)
    ensures DirectionsNumeric(Explode(routes))
            <==> forall i :: 0 <= i < |routes| ==> Numeric(routes[i].info.directionId)
  {
    forall k | 0 <= k < |Explode(routes)|
      ensures Explode(routes)[k].info == routes[Origin(routes, k).0].info
    {
      ExplodeFrom(routes, k);
    }
    forall i | 0 <= i < |routes|
      ensures RowsBefore(routes, i) < |Explode(routes)|
      ensures Explode(routes)[RowsBefore(routes, i)].info == routes[i].info
    {
      ExplodeAt(routes, i, 0);
    }
  }

  /** `format`: name the route fields, explode the bus lists, add the trip id. */
  function Format(records: seq<seq<Cell>>): (r: Result<seq<Trip>>)
    requires SameArity(records)
    requires Rename(records).Ok? ==> RoutesSupported(Rename(records).value)
    ensures r.Ok? <==>
              && Rename(records).Ok?
              && forall i :: 0 <= i < |records| ==> Numeric(Rename(records).value[i].info.directionId)
    ensures Rename(records).Err? ==> r == Err(Rename(records).error)
    ensures r.Err? && Rename(records).Ok? ==> r.error == TypeError(DirectionId)
    ensures r.Ok? ==> |r.value| == RowsBefore(Rename(records).value, |records|)
  {
    match Rename(records)
    case Err(e) => Err(e)
    case Ok(routes) =>
      ExplodeSupported(routes);
      ExplodeNumeric(routes);
      AddTripIds(Explode(routes))
  }

  /**
   * Row RowsBefore(i) + j of `format`'s table is route i's fields with its
   * j-th bus record and the trip id of the route.
   */
  lemma FormatAt(records: seq<seq<Cell>>, i: nat, j: nat)
    requires SameArity(records) && Rename(records).Ok?
    requires RoutesSupported(Rename(records).value) && Format(records).Ok?
    requires i < |records| && j < |Exploded(Rename(records).value[i].buses)|
    ensures Supported(Rename(records).value[i].info) && Numeric(Rename(records).value[i].info.directionId)
    ensures RowsBefore(Rename(records).value, i) + j < |Format(records).value|
    ensures Format(records).value[RowsBefore(Rename(records).value, i) + j]
            == Trip(Rename(records).value[i].info,
                    Exploded(Rename(records).value[i].buses)[j],
                    TripIdOf(Rename(records).value[i].info))
  {
    var routes := Rename(records).value;
    assert |routes| == |records|;
    assert Numeric(routes[i].info.directionId);
    ExplodeSupported(routes);
    var rows := Explode(routes);
    var n := RowsBefore(routes, i) + j;
    ExplodeAt(routes, i, j);
    assert Format(records) == AddTripIds(rows);
    assert AddTripIds(rows).value[n] == Trip(rows[n].info, rows[n].bus, TripIdOf(rows[n].info));
  }

  // ----------------------------------------------------------------------
  // extract_bus

  predicate BusesAreRecords(trips: seq<Trip>) {
    forall i :: 0 <= i < |trips| ==> trips[i].bus.Record?
  }

  /** Number of columns of the table json_normalize builds from the bus records. */
  function BusWidth(trips: seq<Trip>): nat
    requires BusesAreRecords(trips)
  {
    if trips == [] then 0 else |trips[0].bus.fields|
  }

  predicate BusesSameArity(trips: seq<Trip>)
    requires BusesAreRecords(trips)
  {
    forall i :: 0 <= i < |trips| ==> |trips[i].bus.fields| == BusWidth(trips)
  }

  function BusOf(fields: seq<Cell>): (b: BusInfo)
    requires |fields| == |BUS_COLUMNS|
    ensures b.Cells() == fields
  {
    BusInfo(fields[0], fields[1], fields[2], fields[3], fields[4], fields[5], fields[6], fields[7])
  }

  /**
   * `pd.json_normalize(trips_df['buses'])` and `bus_info_df.columns = [...]`:
   * the bus table must be exactly eight columns wide (a table of no rows has
   * no columns); the names go to the fields by position.
   */
  function NameBuses(trips: seq<Trip>): (r: Result<seq<BusInfo>>)
    requires BusesAreRecords(trips) && BusesSameArity(trips)
    ensures r.Ok? <==> |trips| > 0 && forall i :: 0 <= i < |trips| ==> |trips[i].bus.fields| == 8
    ensures r.Err? ==> r.error == LengthMismatch(BusWidth(trips), |BUS_COLUMNS|)
    ensures r.Ok? ==> |r.value| == |trips|
    ensures r.Ok? ==> forall i :: 0 <= i < |trips| ==> r.value[i].Cells() == trips[i].bus.fields
  {
    if BusWidth(trips) != |BUS_COLUMNS| then Err(LengthMismatch(BusWidth(trips), |BUS_COLUMNS|))
    else Ok(seq(|trips|, i requires 0 <= i < |trips| => BusOf(trips[i].bus.fields)))
  }

  /**
   * `pd.concat([trips_df.drop(columns=['buses']), bus_info_df], axis=1)`:
   * both tables are indexed 0..n-1, so row i of one goes beside row i of the
   * other, and the "buses" column is gone.
   */
  function Concat(trips: seq<Trip>, buses: seq<BusInfo>): (rows: seq<Joined>)
    requires |trips| == |buses|
    ensures |rows| == |trips|
    ensures forall i :: 0 <= i < |rows| ==>
              rows[i].info == trips[i].info && rows[i].tripId == trips[i].tripId && rows[i].bus == buses[i]
    ensures forall i :: 0 <= i < |rows| ==>
              rows[i].Cells() == trips[i].info.Cells() + [Str(trips[i].tripId)] + buses[i].Cells()
  {
    seq(|trips|, i requires 0 <= i < |trips| => Joined(trips[i].info, trips[i].tripId, buses[i]))
  }

  /**
   * What the timestamp parser makes of one raw value: an instant, NaT (pandas'
   * missing instant), or a value it rejects, which raises.
   */
  datatype Parsed = At(t: Instant) | NaT | Rejected

  /**
   * `pd.to_datetime` of one value: null and empty text become NaT without
   * raising; any other value is up to the parser.
   */
  function ToDatetime(parse: Cell -> Parsed, c: Cell): (p: Parsed)
    ensures c.Null? || c == Str("") ==> p == NaT
  {
    if c.Null? || c == Str("") then NaT else parse(c)
  }

  predicate Parses(parse: Cell -> Parsed, c: Cell) {
    !ToDatetime(parse, c).Rejected?
  }

  /** The cell a parsed value leaves in the datetime column; NaT is a missing value. */
  function Converted(parse: Cell -> Parsed, c: Cell): (d: Cell)
    requires Parses(parse, c)
    ensures d.Time? || d.Null?
    ensures d.Time? <==> ToDatetime(parse, c).At?
    ensures d.Time? ==> d.t == ToDatetime(parse, c).t
  {
    match ToDatetime(parse, c)
    case At(t) => Time(t)
    case NaT => Null
  }

  function WithTime(r: Joined, c: Cell): Joined {
    r.(bus := r.bus.(timestamp := c))
  }

  /**
   * `pd.to_datetime` on the timestamp column: every raw value is converted to
   * an instant or NaT, and the first one the parser rejects fails the whole
   * column.
   */
  function ParseTimestamps(rows: seq<Joined>, parse: Cell -> Parsed): (r: Result<seq<Joined>>)
    ensures r.Ok? <==> forall i :: 0 <= i < |rows| ==> Parses(parse, rows[i].bus.timestamp)
    ensures r.Err? ==> r.error.TimestampError? && r.error.position < |rows|
    ensures r.Err? ==> r.error.raw == rows[r.error.position].bus.timestamp
                       && !Parses(parse, r.error.raw)
                       && forall i :: 0 <= i < r.error.position ==> Parses(parse, rows[i].bus.timestamp)
    ensures r.Ok? ==> |r.value| == |rows|
    ensures r.Ok? ==> forall i :: 0 <= i < |rows| ==>
              r.value[i] == WithTime(rows[i], Converted(parse, rows[i].bus.timestamp))
  {
    if rows == [] then Ok([])
    else if !Parses(parse, rows[0].bus.timestamp) then Err(TimestampError(0, rows[0].bus.timestamp))
    else
      match ParseTimestamps(rows[1..], parse)
      case Err(TimestampError(p, raw)) => Err(TimestampError(p + 1, raw))
      case Err(e) => Err(e)
      case Ok(rest) => Ok([WithTime(rows[0], Converted(parse, rows[0].bus.timestamp))] + rest)
  }

  /** `bus_info_df['ingestion_time'] = datetime.utcnow()`: one instant for every row. */
  function Stamp(rows: seq<Joined>, now: Instant): (ps: seq<Position>)
    ensures |ps| == |rows|
    ensures forall i :: 0 <= i < |ps| ==> ps[i].row == rows[i] && ps[i].ingestionTime == now
  {
    seq(|rows|, i requires 0 <= i < |rows| => Position(rows[i], now))
  }

  /** The raw timestamp field of a bus record that has the eight bus fields. */
  function RawTimestamp(t: Trip): Cell
    requires t.bus.Record? && |t.bus.fields| == |BUS_COLUMNS|
  {
    t.bus.fields[3]
  }

  predicate TimestampsParse(trips: seq<Trip>, parse: Cell -> Parsed) {
    forall i :: 0 <= i < |trips| ==>
      trips[i].bus.Record? && |trips[i].bus.fields| == |BUS_COLUMNS| && Parses(parse, RawTimestamp(trips[i]))
  }

  /**
   * `extract_bus`: row i of the result holds the route fields and trip id of
   * trip i, then trip i's eight bus fields with the converted timestamp in place
   * of the raw one, then the single ingestion instant of the run.
   */
  function ExtractBus(trips: seq<Trip>, parse: Cell -> Parsed, now: Instant): (r: Result<seq<Position>>)
    requires BusesAreRecords(trips) && BusesSameArity(trips)
    ensures r.Ok? <==> |trips| > 0 && TimestampsParse(trips, parse)
    ensures BusWidth(trips) != |BUS_COLUMNS| ==> r == Err(LengthMismatch(BusWidth(trips), |BUS_COLUMNS|))
    ensures r.Err? && BusWidth(trips) == |BUS_COLUMNS| ==> r.error.TimestampError?
    ensures r.Ok? ==> |r.value| == |trips|
    ensures r.Ok? ==> forall i :: 0 <= i < |trips| ==>
              && r.value[i].row.info == trips[i].info
              && r.value[i].row.tripId == trips[i].tripId
              && r.value[i].row.bus.Cells() == trips[i].bus.fields[3 := Converted(parse, RawTimestamp(trips[i]))]
              && r.value[i].row.bus.timestamp == Converted(parse, RawTimestamp(trips[i]))
              && r.value[i].ingestionTime == now
    ensures r.Ok? ==> forall i :: 0 <= i < |r.value| ==> DatetimeCell(r.value[i].row.bus.timestamp)
  {
    match NameBuses(trips)
    case Err(e) => Err(e)
    case Ok(buses) =>
      var joined := Concat(trips, buses);
      assert forall i :: 0 <= i < |trips| ==> joined[i].bus.timestamp == RawTimestamp(trips[i]);
      match ParseTimestamps(joined, parse)
      case Err(e) => Err(e)
      case Ok(rows) =>
        TimestampsReplaced(trips, buses, joined, rows, parse);
        Ok(Stamp(rows, now))
  }

  lemma TimestampsReplaced(trips: seq<Trip>, buses: seq<BusInfo>, joined: seq<Joined>, rows: seq<Joined>,
                           parse: Cell -> Parsed)
    requires BusesAreRecords(trips) && |buses| == |trips| == |joined| == |rows|
    requires forall i :: 0 <= i < |trips| ==> buses[i].Cells() == trips[i].bus.fields
    requires forall i :: 0 <= i < |trips| ==> joined[i] == Joined(trips[i].info, trips[i].tripId, buses[i])
    requires forall i :: 0 <= i < |trips| ==> |trips[i].bus.fields| == |BUS_COLUMNS|
    requires forall i :: 0 <= i < |trips| ==> Parses(parse, RawTimestamp(trips[i]))
    requires forall i :: 0 <= i < |trips| ==> rows[i] == WithTime(joined[i], Converted(parse, RawTimestamp(trips[i])))
    ensures forall i :: 0 <= i < |trips| ==>
              && rows[i].info == trips[i].info
              && rows[i].tripId == trips[i].tripId
              && rows[i].bus.Cells() == trips[i].bus.fields[3 := Converted(parse, RawTimestamp(trips[i]))]
              && rows[i].bus.timestamp == Converted(parse, RawTimestamp(trips[i]))
  {
    forall i | 0 <= i < |trips|
      ensures rows[i].bus.Cells() == trips[i].bus.fields[3 := Converted(parse, RawTimestamp(trips[i]))]
    {
      var b := buses[i];
      var t := Converted(parse, RawTimestamp(trips[i]));
      assert rows[i].bus == b.(timestamp := t);
      assert b.(timestamp := t).Cells() == b.Cells()[3 := t];
    }
  }

  /**
   * Row i of the table `extract_bus` returns holds the route fields and trip
   * id of trip i, then trip i's eight bus fields with the converted timestamp in
   * place of the raw one, then the single ingestion instant of the run.
   */
  lemma ExtractBusCells(trips: seq<Trip>, parse: Cell -> Parsed, now: Instant, ps: seq<Position>,
                        n: nat, info: RouteInfo, bus: Cell, tripId: string)
    requires BusesAreRecords(trips) && BusesSameArity(trips) && ExtractBus(trips, parse, now) == Ok(ps)
    requires n < |trips| && trips[n] == Trip(info, bus, tripId)
    ensures bus.Record? && |bus.fields| == |BUS_COLUMNS| && Parses(parse, bus.fields[3])
    ensures n < |ps|
    ensures ps[n].Cells() == info.Cells() + [Str(tripId)] + bus.fields[3 := Converted(parse, bus.fields[3])] + [Time(now)]
  {
    assert RawTimestamp(trips[n]) == bus.fields[3];
  }

  // ----------------------------------------------------------------------
  // Column selections

  /** Position in `names` of the first label the table lacks, at or after `start`. */
  function FirstMissing(columns: seq<Column>, names: seq<Column>, start: nat): (k: Option<nat>)
    requires start <= |names|
    ensures k.None? <==> forall j :: start <= j < |names| ==> names[j] in columns
    ensures k.Some? ==> start <= k.value < |names| && names[k.value] !in columns
    decreases |names| - start
  {
    if start == |names| then None
    else if names[start] !in columns then Some(start)
    else FirstMissing(columns, names, start + 1)
  }

  /** Positions of the selected labels; the first label the table lacks raises KeyError. */
  function Indices(columns: seq<Column>, names: seq<Column>): (r: Result<seq<nat>>)
    ensures r.Ok? <==> forall k :: 0 <= k < |names| ==> names[k] in columns
    ensures r.Err? ==> r.error.KeyError? && r.error.column in names && r.error.column !in columns
    ensures r.Ok? ==> |r.value| == |names|
    ensures r.Ok? ==> forall k :: 0 <= k < |names| ==> Some(r.value[k]) == IndexOf(columns, names[k])
  {
    match FirstMissing(columns, names, 0)
    case Some(k) => Err(KeyError(names[k]))
    case None => Ok(seq(|names|, k requires 0 <= k < |names| => IndexOf(columns, names[k]).value))
  }

  /** The cells of a row at the given positions, in that order. */
  function Pick(row: seq<Cell>, js: seq<nat>): (out: seq<Cell>)
    requires forall k :: 0 <= k < |js| ==> js[k] < |row|
    ensures |out| == |js|
    ensures forall k :: 0 <= k < |js| ==> out[k] == row[js[k]]
  {
    seq(|js|, k requires 0 <= k < |js| => row[js[k]])
  }

  /** `df[names]`: the named columns, in the order named, of every row. */
  function Select(f: Frame, names: seq<Column>): (r: Result<Frame>)
    requires Rectangular(f) && Distinct(f.columns)
    ensures r.Ok? <==> forall k :: 0 <= k < |names| ==> names[k] in f.columns
    ensures r.Err? ==> r.error.KeyError? && r.error.column in names && r.error.column !in f.columns
    ensures r.Ok? ==> r.value.columns == names && |r.value.rows| == |f.rows| && Rectangular(r.value)
    ensures r.Ok? ==> forall i, k :: 0 <= i < |f.rows| && 0 <= k < |names| ==>
              Some(r.value.rows[i][k]) == Lookup(f, i, names[k])
  {
    match Indices(f.columns, names)
    case Err(e) => Err(e)
    case Ok(js) => Ok(Frame(names, seq(|f.rows|, i requires 0 <= i < |f.rows| => Pick(f.rows[i], js))))
  }

  /** The cell of row i under the given label, if the table has that column. */
  function Lookup(f: Frame, i: nat, name: Column): (c: Option<Cell>)
    requires Rectangular(f) && i < |f.rows|
    ensures c.Some? <==> name in f.columns
  {
    match IndexOf(f.columns, name)
    case None => None
    case Some(k) => Some(f.rows[i][k])
  }

  /** A cell of a datetime64 column: an instant, or NaT, which the table holds as a missing value. */
  predicate DatetimeCell(c: Cell) {
    c.Time? || c.Null?
  }

  /** `strftime` of one such cell: an instant becomes its text, NaT stays missing. */
  function Rendered(c: Cell): (d: Cell)
    requires DatetimeCell(c)
    ensures c.Time? ==> d.Str? && |d.s| == 19 && ParseIsoSeconds(d.s) == Some(ClockOf(c.t))
    ensures c.Null? ==> d == Null
  {
    if c.Time? then IsoSecondsRoundTrip(c.t); Str(IsoSeconds(c.t)) else Null
  }

  /**
   * `data['timestamp'] = data['timestamp'].dt.strftime('%Y-%m-%dT%H:%M:%S')`:
   * a missing column raises KeyError, a column holding anything but instants
   * and NaT has no `.dt` accessor; otherwise every instant in it becomes its
   * text and every NaT stays missing.
   */
  function StrftimeColumn(f: Frame, name: Column): (r: Result<Frame>)
    requires Rectangular(f) && Distinct(f.columns)
    ensures name !in f.columns ==> r == Err(KeyError(name))
    ensures name in f.columns ==>
              (r.Ok? <==> forall i :: 0 <= i < |f.rows| ==> DatetimeCell(f.rows[i][IndexOf(f.columns, name).value]))
    ensures r.Err? && name in f.columns ==> r.error == AttributeError(name)
    ensures r.Ok? ==> r.value.columns == f.columns && |r.value.rows| == |f.rows| && Rectangular(r.value)
    ensures r.Ok? ==> forall i :: 0 <= i < |f.rows| ==>
              var k := IndexOf(f.columns, name).value;
              r.value.rows[i] == f.rows[i][k := Rendered(f.rows[i][k])]
  {
    match IndexOf(f.columns, name)
    case None => Err(KeyError(name))
    case Some(k) =>
      if forall i :: 0 <= i < |f.rows| ==> DatetimeCell(f.rows[i][k]) then
        Ok(Frame(f.columns, seq(|f.rows|, i requires 0 <= i < |f.rows| => f.rows[i][k := Rendered(f.rows[i][k])])))
      else Err(AttributeError(name))
  }

  /** Each column ranks above the one before it. */
  predicate RanksIncrease(cs: seq<Column>) {
    forall i :: 0 <= i < |cs| - 1 ==> cs[i].Rank() < cs[i + 1].Rank()
  }

  lemma {:induction false} RanksChain(cs: seq<Column>, i: nat, j: nat)
    requires RanksIncrease(cs) && i < j < |cs|
    ensures cs[i].Rank() < cs[j].Rank()
    decreases j - i
  {
    if j > i + 1 {
      RanksChain(cs, i, j - 1);
    }
  }

  /** Columns whose ranks increase are pairwise different. */
  lemma RanksIncreaseDistinct(cs: seq<Column>)
    requires RanksIncrease(cs)
    ensures Distinct(cs)
  {
    forall i, j | 0 <= i < j < |cs|
      ensures cs[i] != cs[j]
    {
      RanksChain(cs, i, j);
    }
  }

  /** The labels of the table `extract_bus` returns are distinct. */
  lemma PositionColumnsDistinct()
    ensures Distinct(POSITION_COLUMNS)
  {
    assert RanksIncrease(POSITION_COLUMNS);
    RanksIncreaseDistinct(POSITION_COLUMNS);
  }

  /** The table `extract_bus` returns, as a DataFrame with its column labels. */
  function ToFrame(ps: seq<Position>): (f: Frame)
    ensures f.columns == POSITION_COLUMNS && Distinct(f.columns) && Rectangular(f) && |f.rows| == |ps|
    ensures forall i :: 0 <= i < |ps| ==> f.rows[i] == ps[i].Cells()
  {
    PositionColumnsDistinct();
    Frame(POSITION_COLUMNS, seq(|ps|, i requires 0 <= i < |ps| => ps[i].Cells()))
  }

  /**
   * When the k-th label first occurs at position js[k] for every k, the
   * selection picks the cells at those positions from every row.
   */
  lemma SelectPositionsOf(f: Frame, names: seq<Column>, js: seq<nat>)
    requires Rectangular(f) && Distinct(f.columns) && |js| == |names|
    requires forall k :: 0 <= k < |js| ==> js[k] < |f.columns| && f.columns[js[k]] == names[k]
    requires forall k, m :: 0 <= k < |js| && 0 <= m < js[k] ==> f.columns[m] != names[k]
    ensures Select(f, names).Ok?
    ensures forall i :: 0 <= i < |f.rows| ==> Select(f, names).value.rows[i] == Pick(f.rows[i], js)
  {
    forall k | 0 <= k < |js|
      ensures IndexOf(f.columns, names[k]) == Some(js[k])
    {
      IndexAt(f.columns, names[k], js[k]);
    }
    assert Indices(f.columns, names).value == js;
  }

  /** The export row of one position. */
  function ExportRow(p: Position): seq<Cell> {
    [Time(p.ingestionTime), p.row.info.routeId, p.row.info.tripCode, p.row.info.directionId,
     p.row.bus.busPrefix, p.row.bus.isAccessible, p.row.bus.timestamp, p.row.bus.lat, p.row.bus.lon]
  }

  /** The message row of one position, before the timestamp is rendered. */
  function MessageRow(p: Position): seq<Cell> {
    [Str(p.row.tripId), p.row.bus.busPrefix, p.row.bus.lat, p.row.bus.lon, p.row.bus.timestamp]
  }

  const EXPORT_POSITIONS: seq<nat> := [15, 0, 1, 2, 7, 9, 10, 11, 12]
  const MESSAGE_POSITIONS: seq<nat> := [6, 7, 11, 12, 10]

  lemma PickPosition(p: Position)
    ensures Pick(p.Cells(), EXPORT_POSITIONS) == ExportRow(p)
    ensures Pick(p.Cells(), MESSAGE_POSITIONS) == MessageRow(p)
  {
    var cs := p.Cells();
    assert cs[0] == p.row.info.routeId && cs[1] == p.row.info.tripCode && cs[2] == p.row.info.directionId;
    assert cs[6] == Str(p.row.tripId) && cs[7] == p.row.bus.busPrefix && cs[9] == p.row.bus.isAccessible;
    assert cs[10] == p.row.bus.timestamp && cs[11] == p.row.bus.lat && cs[12] == p.row.bus.lon;
    assert cs[15] == Time(p.ingestionTime);
  }

  /** Where the export and message labels first occur in the table `extract_bus` returns. */
  lemma ExportLayout()
    ensures |EXPORT_POSITIONS| == |EXPORT_COLUMNS|
    ensures forall k :: 0 <= k < |EXPORT_POSITIONS| ==>
              EXPORT_POSITIONS[k] < |POSITION_COLUMNS| && POSITION_COLUMNS[EXPORT_POSITIONS[k]] == EXPORT_COLUMNS[k]
    ensures forall k, m :: 0 <= k < |EXPORT_POSITIONS| && 0 <= m < EXPORT_POSITIONS[k] ==>
              POSITION_COLUMNS[m] != EXPORT_COLUMNS[k]
  {
  }

  lemma MessageLayout()
    ensures |MESSAGE_POSITIONS| == |MESSAGE_COLUMNS|
    ensures forall k :: 0 <= k < |MESSAGE_POSITIONS| ==>
              MESSAGE_POSITIONS[k] < |POSITION_COLUMNS| && POSITION_COLUMNS[MESSAGE_POSITIONS[k]] == MESSAGE_COLUMNS[k]
    ensures forall k, m :: 0 <= k < |MESSAGE_POSITIONS| && 0 <= m < MESSAGE_POSITIONS[k] ==>
              POSITION_COLUMNS[m] != MESSAGE_COLUMNS[k]
  {
  }

  lemma SelectExport(ps: seq<Position>)
    ensures Select(ToFrame(ps), EXPORT_COLUMNS).Ok?
    ensures forall i :: 0 <= i < |ps| ==> Select(ToFrame(ps), EXPORT_COLUMNS).value.rows[i] == ExportRow(ps[i])
  {
    var f := ToFrame(ps);
    ExportLayout();
    SelectPositionsOf(f, EXPORT_COLUMNS, EXPORT_POSITIONS);
    forall i | 0 <= i < |ps|
      ensures Pick(f.rows[i], EXPORT_POSITIONS) == ExportRow(ps[i])
    {
      PickPosition(ps[i]);
    }
  }

  /** The selected message columns of every position, before the timestamps are rendered. */
  function MessageFrame(ps: seq<Position>): (f: Frame)
    ensures f.columns == MESSAGE_COLUMNS && Distinct(f.columns) && |f.rows| == |ps| && Rectangular(f)
    ensures forall i :: 0 <= i < |ps| ==> f.rows[i] == MessageRow(ps[i])
  {
    Frame(MESSAGE_COLUMNS, seq(|ps|, i requires 0 <= i < |ps| => MessageRow(ps[i])))
  }

  lemma SelectMessage(ps: seq<Position>)
    ensures Select(ToFrame(ps), MESSAGE_COLUMNS) == Ok(MessageFrame(ps))
  {
    var f := ToFrame(ps);
    MessageLayout();
    SelectPositionsOf(f, MESSAGE_COLUMNS, MESSAGE_POSITIONS);
    forall i | 0 <= i < |ps|
      ensures Pick(f.rows[i], MESSAGE_POSITIONS) == MessageRow(ps[i])
    {
      PickPosition(ps[i]);
    }
    assert Select(f, MESSAGE_COLUMNS).value.rows == MessageFrame(ps).rows;
  }

  /**
   * `info_df[EXPORT_COLUMNS]`: always succeeds, keeps every row in order, and
   * gives each row the nine export columns in the export order.
   */
  function Export(ps: seq<Position>): (r: Result<Frame>)
    ensures r.Ok? && r.value.columns == EXPORT_COLUMNS && |r.value.rows| == |ps|
    ensures r.Ok? ==> forall i :: 0 <= i < |ps| ==>
              r.value.rows[i]
              == [Time(ps[i].ingestionTime), ps[i].row.info.routeId, ps[i].row.info.tripCode,
                  ps[i].row.info.directionId, ps[i].row.bus.busPrefix, ps[i].row.bus.isAccessible,
                  ps[i].row.bus.timestamp, ps[i].row.bus.lat, ps[i].row.bus.lon]
  {
    SelectExport(ps);
    Select(ToFrame(ps), EXPORT_COLUMNS)
  }

  /**
   * The frame `send_pubsub` publishes: trip id, bus prefix, latitude,
   * longitude and the timestamp as "%Y-%m-%dT%H:%M:%S" text, every row in
   * order, with NaT published as missing. It fails only when a timestamp is
   * neither an instant nor NaT.
   */
  function Message(ps: seq<Position>): (r: Result<Frame>)
    ensures r.Ok? <==> forall i :: 0 <= i < |ps| ==> DatetimeCell(ps[i].row.bus.timestamp)
    ensures r.Err? ==> r.error == AttributeError(Timestamp)
    ensures r.Ok? ==> r.value.columns == MESSAGE_COLUMNS && |r.value.rows| == |ps|
    ensures r.Ok? ==> forall i :: 0 <= i < |ps| ==>
              r.value.rows[i]
              == [Str(ps[i].row.tripId), ps[i].row.bus.busPrefix, ps[i].row.bus.lat,
                  ps[i].row.bus.lon, Rendered(ps[i].row.bus.timestamp)]
  {
    SelectMessage(ps);
    MessageRendered(ps);
    StrftimeColumn(Select(ToFrame(ps), MESSAGE_COLUMNS).value, Timestamp)
  }

  /** Rendering the timestamp column of the selected message columns, row by row. */
  lemma MessageRendered(ps: seq<Position>)
    ensures var r := StrftimeColumn(MessageFrame(ps), Timestamp);
            && (r.Ok? <==> forall i :: 0 <= i < |ps| ==> DatetimeCell(ps[i].row.bus.timestamp))
            && (r.Err? ==> r.error == AttributeError(Timestamp))
            && (r.Ok? ==> r.value.columns == MESSAGE_COLUMNS && |r.value.rows| == |ps|)
            && (r.Ok? ==> forall i :: 0 <= i < |ps| ==>
                  r.value.rows[i]
                  == [Str(ps[i].row.tripId), ps[i].row.bus.busPrefix, ps[i].row.bus.lat,
                      ps[i].row.bus.lon, Rendered(ps[i].row.bus.timestamp)])
  {
    var data := MessageFrame(ps);
    IndexAt(MESSAGE_COLUMNS, Timestamp, 4);
    MessageTimestamps(ps);
    var r := StrftimeColumn(data, Timestamp);
    if r.Ok? {
      forall i | 0 <= i < |ps|
        ensures r.value.rows[i]
                == [Str(ps[i].row.tripId), ps[i].row.bus.busPrefix, ps[i].row.bus.lat,
                    ps[i].row.bus.lon, Rendered(ps[i].row.bus.timestamp)]
      {
        MessageRowRendered(ps[i]);
      }
    }
  }

  lemma MessageTimestamps(ps: seq<Position>)
    ensures (forall i :: 0 <= i < |ps| ==> DatetimeCell(MessageFrame(ps).rows[i][4]))
            <==> (forall i :: 0 <= i < |ps| ==> DatetimeCell(ps[i].row.bus.timestamp))
  {
    assert forall i :: 0 <= i < |ps| ==> MessageFrame(ps).rows[i][4] == ps[i].row.bus.timestamp;
  }

  lemma MessageRowRendered(p: Position)
    requires DatetimeCell(p.row.bus.timestamp)
    ensures MessageRow(p)[4 := Rendered(p.row.bus.timestamp)]
            == [Str(p.row.tripId), p.row.bus.busPrefix, p.row.bus.lat,
                p.row.bus.lon, Rendered(p.row.bus.timestamp)]
  {
  }

  /**
   * Every published timestamp of an instant is nineteen characters that read
   * back as the instant's date and time; a NaT timestamp is published missing.
   */
  lemma MessageTimestampText(ps: seq<Position>, i: nat)
    requires Message(ps).Ok? && i < |ps|
    ensures ps[i].row.bus.timestamp.Time? ==>
              && Message(ps).value.rows[i][4].Str?
              && |Message(ps).value.rows[i][4].s| == 19
              && ParseIsoSeconds(Message(ps).value.rows[i][4].s) == Some(ClockOf(ps[i].row.bus.timestamp.t))
    ensures ps[i].row.bus.timestamp.Null? ==> Message(ps).value.rows[i][4] == Null
  {
    if ps[i].row.bus.timestamp.Time? {
      IsoSecondsRoundTrip(ps[i].row.bus.timestamp.t);
    }
  }

  // ----------------------------------------------------------------------
  // The whole reshaping, and the status check before it

  /**
   * The route records of one answer, within what the model covers: every
   * record has the same fields, the route ids render and the directions are
   * not floating point, and every bus cell left after exploding is a record
   * with the same number of fields.
   */
  predicate Poll(records: seq<seq<Cell>>) {
    && SameArity(records)
    && (Rename(records).Ok? ==> RoutesSupported(Rename(records).value))
    && (Format(records).Ok? ==>
          BusesAreRecords(Format(records).value) && BusesSameArity(Format(records).value))
  }

  /** `extract_bus(format(info_df), ...)`. */
  function Transform(records: seq<seq<Cell>>, parse: Cell -> Parsed, now: Instant)
    : (r: Result<seq<Position>>)
    requires Poll(records)
    ensures Format(records).Err? ==> r == Err(Format(records).error)
    ensures r.Ok? <==>
              Format(records).Ok? && |Format(records).value| > 0 && TimestampsParse(Format(records).value, parse)
    ensures r.Ok? ==> |r.value| == |Format(records).value|
    ensures r.Ok? ==> forall i :: 0 <= i < |r.value| ==> DatetimeCell(r.value[i].row.bus.timestamp)
    ensures r.Ok? ==> forall i :: 0 <= i < |r.value| ==> r.value[i].ingestionTime == now
  {
    match Format(records)
    case Err(e) => Err(e)
    case Ok(trips) => ExtractBus(trips, parse, now)
  }

  /**
   * A table whose every bus cell is a record comes from routes whose bus
   * lists are all non-empty lists (an empty list or a scalar would leave a
   * cell that is not a record).
   */
  lemma FormatRecordsNonEmpty(records: seq<seq<Cell>>)
    requires SameArity(records) && Rename(records).Ok?
    requires RoutesSupported(Rename(records).value) && Format(records).Ok?
    requires BusesAreRecords(Format(records).value)
    ensures NonEmptyBusLists(Rename(records).value)
  {
    var routes := Rename(records).value;
    forall i | 0 <= i < |routes|
      ensures routes[i].buses.List? && routes[i].buses.items != []
    {
      FormatAt(records, i, 0);
    }
  }

  /** The reshaped table has exactly one row per bus record of the input. */
  lemma TransformCount(records: seq<seq<Cell>>, parse: Cell -> Parsed, now: Instant)
    requires Poll(records) && Transform(records, parse, now).Ok?
    ensures NonEmptyBusLists(Rename(records).value)
    ensures |Transform(records, parse, now).value| == BusTotal(Rename(records).value)
  {
    FormatRecordsNonEmpty(records);
    ExplodeCount(Rename(records).value);
  }

  /**
   * Row RowsBefore(i) + j of the reshaped table holds route i's six fields,
   * its trip id, the eight fields of its j-th bus with the converted timestamp,
   * and the run's ingestion instant.
   */
  lemma TransformAt(records: seq<seq<Cell>>, parse: Cell -> Parsed, now: Instant, i: nat, j: nat)
    requires Poll(records) && Transform(records, parse, now).Ok?
    requires i < |records|
    requires Rename(records).value[i].buses.List? && j < |Rename(records).value[i].buses.items|
    ensures var routes := Rename(records).value;
            var ps := Transform(records, parse, now).value;
            var n := RowsBefore(routes, i) + j;
            var bus := routes[i].buses.items[j];
            && Supported(routes[i].info) && Numeric(routes[i].info.directionId)
            && bus.Record? && |bus.fields| == |BUS_COLUMNS| && Parses(parse, bus.fields[3])
            && n < |ps|
            && ps[n].row.info == routes[i].info
            && ps[n].row.tripId == TripIdOf(routes[i].info)
            && ps[n].row.bus.Cells() == bus.fields[3 := Converted(parse, bus.fields[3])]
            && ps[n].ingestionTime == now
  {
    TransformIsExtract(records, parse, now);
    assert Exploded(Rename(records).value[i].buses) == Rename(records).value[i].buses.items;
    FormatAt(records, i, j);
  }

  lemma TransformIsExtract(records: seq<seq<Cell>>, parse: Cell -> Parsed, now: Instant)
    requires Poll(records) && Transform(records, parse, now).Ok?
    ensures Format(records).Ok?
    ensures BusesAreRecords(Format(records).value) && BusesSameArity(Format(records).value)
    ensures Transform(records, parse, now) == ExtractBus(Format(records).value, parse, now)
  {
  }

  /** `_request`: any status but 200 raises with the status and the body text. */
  function Request(status: int, text: string, routes: seq<seq<Cell>>): (r: Result<seq<seq<Cell>>>)
    ensures r.Err? <==> status != 200
    ensures r.Err? ==> r.error == FetchError(status, text)
    ensures r.Ok? ==> r.value == routes
  {
    if status != 200 then Err(FetchError(status, text)) else Ok(routes)
  }

  /**
   * The reshaping part of `main`, for an answer with the given status whose
   * "l" field holds the route records: the message frame and the export
   * frame. A failed request reaches neither sink.
   */
  function Pipeline(status: int, text: string, records: seq<seq<Cell>>,
                    parse: Cell -> Parsed, now: Instant): (r: Result<(Frame, Frame)>)
    requires Poll(records)
    ensures status != 200 ==> r == Err(FetchError(status, text))
    ensures status == 200 ==> (r.Ok? <==> Transform(records, parse, now).Ok?)
    ensures r.Ok? ==>
              && Message(Transform(records, parse, now).value).Ok?
              && r.value == (Message(Transform(records, parse, now).value).value,
                             Export(Transform(records, parse, now).value).value)
    ensures r.Ok? ==>
              && r.value.0.columns == MESSAGE_COLUMNS && r.value.1.columns == EXPORT_COLUMNS
              && |r.value.0.rows| == |r.value.1.rows| == |Transform(records, parse, now).value|
  {
    match Request(status, text, records)
    case Err(e) => Err(e)
    case Ok(l) =>
      match Transform(l, parse, now)
      case Err(e) => Err(e)
      case Ok(ps) =>
        Ok((Message(ps).value, Export(ps).value))
  }
}
