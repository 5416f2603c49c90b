/** Encoding column types and schemas: which types are supported, and that decoding gives them back. */
module DataTypeCodec {

  import opened Options
  import opened Results

  type Metadata = map<string, string>

  /** Types without parameters, encoded by a variant of the same name. */
  datatype PlainType =
    | Null | Boolean | Int8 | Int16 | Int32 | Int64 | UInt8 | UInt16 | UInt32 | UInt64 | Float32 | Float64
    | Utf8 | Utf8View | LargeUtf8 | Binary | LargeBinary | Date32 | Date64

  datatype TimeUnit = Second | Millisecond | Microsecond | Nanosecond

  datatype IntervalUnit = YearMonth | DayTime | MonthDayNano

  datatype Field = Field(name: string, dataType: DataType, nullable: bool, metadata: Metadata)

  datatype DataType =
    | Plain(plain: PlainType)
    | Decimal128(precision: int, scale: int)
    | Decimal256(precision: int, scale: int)
    | FixedSizeBinary(size: int)
    | Time32(unit: TimeUnit)
    | Time64(unit: TimeUnit)
    | Timestamp(unit: TimeUnit, timezone: Option<string>)
    | Duration(unit: TimeUnit)
    | Interval(interval: IntervalUnit)
    | List(item: Field)
    | LargeList(item: Field)
    | FixedSizeList(item: Field, length: int)
    | Struct(fields: seq<Field>)
    | OtherType(name: string)

  datatype FieldRepr = FieldRepr(name: string, dataType: DataTypeRepr, nullable: bool, metadata: seq<(string, string)>)

  datatype DataTypeRepr =
    | PlainRepr(plain: PlainType)
    | Decimal128Repr(precision: int, scale: int)
    | Decimal256Repr(precision: int, scale: int)
    | FixedSizeBinaryRepr(size: int)
    | Time32SecondRepr
    | Time32MillisecondRepr
    | Time64MicrosecondRepr
    | Time64NanosecondRepr
    | TimestampRepr(unit: string, timezone: Option<string>)
    | DurationRepr(unit: string)
    | IntervalRepr(unit: string)
    | ListRepr(item: FieldRepr)
    | LargeListRepr(item: FieldRepr)
    | FixedSizeListRepr(item: FieldRepr, length: int)
    | StructRepr(fields: seq<FieldRepr>)

  // ---- metadata: a hash map listed in some order and collected back ----

  /** How a hash map happens to be iterated. */
  type Listing = Metadata -> seq<(string, string)>

  ghost predicate Lists(pairs: seq<(string, string)>, m: Metadata) {
    && (forall i, j | 0 <= i < j < |pairs| :: pairs[i].0 != pairs[j].0)
    && (forall i | 0 <= i < |pairs| :: pairs[i].0 in m && m[pairs[i].0] == pairs[i].1)
    && forall k | k in m :: (k, m[k]) in pairs
  }

  ghost predicate GoodListing(listing: Listing) {
    forall m :: Lists(listing(m), m)
  }

  function FromPairs(pairs: seq<(string, string)>): Metadata {
    if pairs == [] then map[]
    else
      var last := pairs[|pairs| - 1];
      FromPairs(pairs[..|pairs| - 1])[last.0 := last.1]
  }

  lemma {:induction false} PairsMeaning(pairs: seq<(string, string)>)
    requires forall i, j | 0 <= i < j < |pairs| :: pairs[i].0 != pairs[j].0
    ensures forall k, v :: (k in FromPairs(pairs) && FromPairs(pairs)[k] == v) <==> (k, v) in pairs
  {
    if pairs != [] {
      var init, last := pairs[..|pairs| - 1], pairs[|pairs| - 1];
      PairsMeaning(init);
      assert pairs == init + [last];
    }
  }

  lemma ListedBack(pairs: seq<(string, string)>, m: Metadata)
    requires Lists(pairs, m)
    ensures FromPairs(pairs) == m
  {
    PairsMeaning(pairs);
    forall k ensures k in FromPairs(pairs) <==> k in m {
      if k in FromPairs(pairs) {
        assert (k, FromPairs(pairs)[k]) in pairs;
      }
      if k in m {
        assert (k, m[k]) in pairs;
      }
    }
    forall k | k in m ensures FromPairs(pairs)[k] == m[k] {
      assert (k, m[k]) in pairs;
    }
  }

  // ---- units by their debug names ----

  function ShowUnit(u: TimeUnit): string {
    match u
    case Second => "Second"
    case Millisecond => "Millisecond"
    case Microsecond => "Microsecond"
    case Nanosecond => "Nanosecond"
  }

  function ReadUnit(s: string): Result<TimeUnit> {
    if s == "Second" then Ok(Second)
    else if s == "Millisecond" then Ok(Millisecond)
    else if s == "Microsecond" then Ok(Microsecond)
    else if s == "Nanosecond" then Ok(Nanosecond)
    else Err
  }

  function ShowInterval(u: IntervalUnit): string {
    match u
    case YearMonth => "YearMonth"
    case DayTime => "DayTime"
    case MonthDayNano => "MonthDayNano"
  }

  function ReadInterval(s: string): Result<IntervalUnit> {
    if s == "YearMonth" then Ok(YearMonth)
    else if s == "DayTime" then Ok(DayTime)
    else if s == "MonthDayNano" then Ok(MonthDayNano)
    else Err
  }

  lemma UnitRoundTrip(u: TimeUnit)
    ensures ReadUnit(ShowUnit(u)) == Ok(u)
  {
    assert "Second"[0] != "Millisecond"[0] && "Second"[0] != "Microsecond"[0] && "Second"[0] != "Nanosecond"[0];
    assert "Millisecond"[2] != "Microsecond"[2] && "Millisecond"[0] != "Nanosecond"[0];
    assert "Microsecond"[0] != "Nanosecond"[0];
  }

  lemma IntervalRoundTrip(u: IntervalUnit)
    ensures ReadInterval(ShowInterval(u)) == Ok(u)
  {
    assert "YearMonth"[0] != "DayTime"[0] && "YearMonth"[0] != "MonthDayNano"[0] && "DayTime"[0] != "MonthDayNano"[0];
  }

  // ---- types and fields ----

  function FromField(field: Field, listing: Listing): Result<FieldRepr>
    decreases field
  {
    var dataType :- FromDataType(field.dataType, listing);
    Ok(FieldRepr(field.name, dataType, field.nullable, listing(field.metadata)))
  }

  function EncodedFields(fields: seq<Field>, listing: Listing): (r: seq<Result<FieldRepr>>)
    ensures |r| == |fields| && forall i | 0 <= i < |r| :: r[i] == FromField(fields[i], listing)
    decreases fields
  {
    seq(|fields|, i requires 0 <= i < |fields| => FromField(fields[i], listing))
  }

  function DecodedFields(fields: seq<FieldRepr>): (r: seq<Result<Field>>)
    ensures |r| == |fields| && forall i | 0 <= i < |r| :: r[i] == ToField(fields[i])
    decreases fields
  {
    seq(|fields|, i requires 0 <= i < |fields| => ToField(fields[i]))
  }

  function FromDataType(t: DataType, listing: Listing): Result<DataTypeRepr>
    decreases t
  {
    match t
    case Plain(p) => Ok(PlainRepr(p))
    case Decimal128(precision, scale) => Ok(Decimal128Repr(precision, scale))
    case Decimal256(precision, scale) => Ok(Decimal256Repr(precision, scale))
    case FixedSizeBinary(size) => Ok(FixedSizeBinaryRepr(size))
    case Time32(Second) => Ok(Time32SecondRepr)
    case Time32(Millisecond) => Ok(Time32MillisecondRepr)
    case Time64(Microsecond) => Ok(Time64MicrosecondRepr)
    case Time64(Nanosecond) => Ok(Time64NanosecondRepr)
    case Timestamp(unit, tz) => Ok(TimestampRepr(ShowUnit(unit), tz))
    case Duration(unit) => Ok(DurationRepr(ShowUnit(unit)))
    case Interval(unit) => Ok(IntervalRepr(ShowInterval(unit)))
    case List(item) => var f :- FromField(item, listing); Ok(ListRepr(f))
    case LargeList(item) => var f :- FromField(item, listing); Ok(LargeListRepr(f))
    case FixedSizeList(item, length) =>
      var f :- FromField(item, listing); Ok(FixedSizeListRepr(f, length))
    case Struct(fields) =>
      var fs :- Collect(EncodedFields(fields, listing)); Ok(StructRepr(fs))
    case _ => Err
  }

  function ToField(repr: FieldRepr): Result<Field>
    decreases repr
  {
    var dataType :- ToDataType(repr.dataType);
    Ok(Field(repr.name, dataType, repr.nullable, if repr.metadata == [] then map[] else FromPairs(repr.metadata)))
  }

  function ToDataType(repr: DataTypeRepr): Result<DataType>
    decreases repr
  {
    match repr
    case PlainRepr(p) => Ok(Plain(p))
    case Decimal128Repr(precision, scale) => Ok(Decimal128(precision, scale))
    case Decimal256Repr(precision, scale) => Ok(Decimal256(precision, scale))
    case FixedSizeBinaryRepr(size) => Ok(FixedSizeBinary(size))
    case Time32SecondRepr => Ok(Time32(Second))
    case Time32MillisecondRepr => Ok(Time32(Millisecond))
    case Time64MicrosecondRepr => Ok(Time64(Microsecond))
    case Time64NanosecondRepr => Ok(Time64(Nanosecond))
    case TimestampRepr(unit, tz) => var u :- ReadUnit(unit); Ok(Timestamp(u, tz))
    case DurationRepr(unit) => var u :- ReadUnit(unit); Ok(Duration(u))
    case IntervalRepr(unit) => var u :- ReadInterval(unit); Ok(Interval(u))
    case ListRepr(item) => var f :- ToField(item); Ok(List(f))
    case LargeListRepr(item) => var f :- ToField(item); Ok(LargeList(f))
    case FixedSizeListRepr(item, length) => var f :- ToField(item); Ok(FixedSizeList(f, length))
    case StructRepr(fields) =>
      var fs :- Collect(DecodedFields(fields)); Ok(Struct(fs))
  }

  /** The supported fragment: no unknown type anywhere, and times only in the units their width allows. */
  predicate SupportedType(t: DataType)
    decreases t
  {
    match t
    case Time32(unit) => unit == Second || unit == Millisecond
    case Time64(unit) => unit == Microsecond || unit == Nanosecond
    case List(item) => SupportedType(item.dataType)
    case LargeList(item) => SupportedType(item.dataType)
    case FixedSizeList(item, _) => SupportedType(item.dataType)
    case Struct(fields) => forall i | 0 <= i < |fields| :: SupportedType(fields[i].dataType)
    case OtherType(_) => false
    case _ => true
  }

  /** A type encodes exactly when it is supported, and then it decodes to itself. */
  lemma {:induction false} TypeRoundTrip(t: DataType, listing: Listing)
    requires GoodListing(listing)
    ensures FromDataType(t, listing).Ok? <==> SupportedType(t)
    ensures SupportedType(t) ==> ToDataType(FromDataType(t, listing).value) == Ok(t)
    decreases t
  {
    hide ShowUnit, ReadUnit, ShowInterval, ReadInterval, FromField, ToField, Collect, EncodedFields, DecodedFields;
    match t
    case Timestamp(unit, _) => UnitRoundTrip(unit);
    case Duration(unit) => UnitRoundTrip(unit);
    case Interval(unit) => IntervalRoundTrip(unit);
    case List(item) => FieldRoundTrip(item, listing);
    case LargeList(item) => FieldRoundTrip(item, listing);
    case FixedSizeList(item, _) => FieldRoundTrip(item, listing);
    case Struct(fields) =>
      FieldsRoundTrip(fields, listing);
    case _ =>
  }

  lemma {:induction false} FieldRoundTrip(field: Field, listing: Listing)
    requires GoodListing(listing)
    ensures FromField(field, listing).Ok? <==> SupportedType(field.dataType)
    ensures SupportedType(field.dataType) ==> ToField(FromField(field, listing).value) == Ok(field)
    decreases field
  {
    TypeRoundTrip(field.dataType, listing);
    ListedBack(listing(field.metadata), field.metadata);
  }

  predicate SupportedFields(fields: seq<Field>) {
    forall i | 0 <= i < |fields| :: SupportedType(fields[i].dataType)
  }

  lemma {:induction false} FieldsRoundTrip(fields: seq<Field>, listing: Listing)
    requires GoodListing(listing)
    ensures Collect(EncodedFields(fields, listing)).Ok? <==> SupportedFields(fields)
    ensures SupportedFields(fields) ==>
              Collect(DecodedFields(Collect(EncodedFields(fields, listing)).value)) == Ok(fields)
    decreases fields
  {
    var encoded := EncodedFields(fields, listing);
    forall i | 0 <= i < |fields|
      ensures encoded[i].Ok? <==> SupportedType(fields[i].dataType)
      ensures SupportedType(fields[i].dataType) ==> ToField(encoded[i].value) == Ok(fields[i])
    {
      FieldRoundTrip(fields[i], listing);
    }
    if SupportedFields(fields) {
      var reprs := Collect(encoded).value;
      var decoded := DecodedFields(reprs);
      assert forall i | 0 <= i < |fields| :: encoded[i] == Ok(reprs[i]) && decoded[i] == Ok(fields[i]);
      assert Collect(decoded).value == fields;
    }
  }

  datatype Schema = Schema(fields: seq<Field>, metadata: Metadata)

  datatype SchemaRepr = SchemaRepr(fields: seq<FieldRepr>, metadata: seq<(string, string)>)

  function FromSchema(schema: Schema, listing: Listing): Result<SchemaRepr> {
    var fields :- Collect(EncodedFields(schema.fields, listing));
    Ok(SchemaRepr(fields, listing(schema.metadata)))
  }

  function ToSchema(repr: SchemaRepr): Result<Schema> {
    var fields :- Collect(DecodedFields(repr.fields));
    Ok(Schema(fields, FromPairs(repr.metadata)))
  }

  lemma SchemaRoundTrip(schema: Schema, listing: Listing)
    requires GoodListing(listing)
    ensures FromSchema(schema, listing).Ok? <==> SupportedFields(schema.fields)
    ensures SupportedFields(schema.fields) ==> ToSchema(FromSchema(schema, listing).value) == Ok(schema)
  {
    FieldsRoundTrip(schema.fields, listing);
    ListedBack(listing(schema.metadata), schema.metadata);
  }
}
