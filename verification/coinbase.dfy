/** The Coinbase feed: the subscription frame, the classification of
    incoming frames into records, and the `RfqMatch` table. JSON decoding is
    outside the model: `handle` receives the outcome of each `from_str` call
    as a function from the frame text. */
module Coinbase {
  import opened Wrappers
  import opened ParquetTypes
  import opened Persistable
  import opened Row
  import opened DeriveAttrs
  import opened SchemaLayout
  import opened SchemaProperties

  const EXCHANGE := "coinbase"
  const WS_URL := "wss://ws-feed.exchange.coinbase.com"

  /** The `type` of the frames kept as data and of the frames that stop the feed. */
  const MATCH_TYPE := "rfq_match"
  const ERROR_TYPE := "error"
  const NO_TEXT := "no text"

  /** `{"type": "subscribe", "channels": ["rfq_matches"]}` as serde_json prints
      it: compact, keys in the ascending order of its default map. */
  const SUBSCRIBE_TEXT := "{\"channels\":[\"rfq_matches\"],\"type\":\"subscribe\"}"

  /** A WebSocket frame: text, or any other kind (binary, ping, pong, close). */
  datatype Message = Text(text: string) | OtherFrame

  /** A decoded `rfq_match` message. `time` is `timestamp_nanos_opt()` of the
      timestamp; `size` and `price` are the f64 bit patterns that
      `Decimal::to_f64()` gives (the decimal persister unwraps it). */
  datatype RfqMatch = RfqMatch(
    channel: string,
    makerOrderId: string,
    takerOrderId: string,
    time: Option<i64>,
    tradeId: u64,
    productId: string,
    size: u64,
    price: u64,
    side: string)

  datatype RfqError = RfqError(channel: string, message: string, reason: string)

  datatype VenueData = CoinbaseRfqMatch(rfqMatch: RfqMatch)

  /** What `handle` hands to the persister. */
  datatype Record =
    | Data(exchange: string, channel: string, symbol: string, data: VenueData)
    | Skip(message: string)
    | Error(message: string, reason: string)

  /** `subscribe` */
  function Subscribe(): Message {
    Text(SUBSCRIBE_TEXT)
  }

  /** `handle`: a text frame that decodes as an `RfqMatch` is data when its
      type is "rfq_match" and skipped otherwise; one that does not decode as
      an `RfqMatch` but as an `RfqError` of type "error" stops the feed; any
      other text is skipped with its content, any other frame with "no text". */
  function Handle(msg: Message, parseMatch: string -> Option<RfqMatch>, parseError: string -> Option<RfqError>): Record {
    match msg
    case OtherFrame => Skip(NO_TEXT)
    case Text(s) =>
      match parseMatch(s)
      case Some(m) =>
        if m.channel == MATCH_TYPE then Data(EXCHANGE, m.channel, m.productId, CoinbaseRfqMatch(m))
        else Skip(s)
      case None =>
        match parseError(s)
        case Some(e) =>
          if e.channel == ERROR_TYPE then Error(e.message, e.reason) else Skip(s)
        case None => Skip(s)
  }

  /** Data comes exactly from text that decodes as a match of type
      "rfq_match", and carries the exchange, the type, the product as symbol
      and the match itself. */
  lemma {:induction false} HandleData(msg: Message, parseMatch: string -> Option<RfqMatch>, parseError: string -> Option<RfqError>)
    ensures Handle(msg, parseMatch, parseError).Data? <==>
      msg.Text? && parseMatch(msg.text).Some? && parseMatch(msg.text).value.channel == MATCH_TYPE
    ensures Handle(msg, parseMatch, parseError).Data? ==>
      var m := parseMatch(msg.text).value;
      Handle(msg, parseMatch, parseError) == Data("coinbase", "rfq_match", m.productId, CoinbaseRfqMatch(m))
  {
  }

  /** An error record comes exactly from text that does not decode as a
      match but decodes as an error of type "error", and carries its message
      and reason. */
  lemma {:induction false} HandleError(msg: Message, parseMatch: string -> Option<RfqMatch>, parseError: string -> Option<RfqError>)
    ensures Handle(msg, parseMatch, parseError).Error? <==>
      msg.Text? && parseMatch(msg.text).None? && parseError(msg.text).Some?
      && parseError(msg.text).value.channel == ERROR_TYPE
    ensures Handle(msg, parseMatch, parseError).Error? ==>
      Handle(msg, parseMatch, parseError).message == parseError(msg.text).value.message
      && Handle(msg, parseMatch, parseError).reason == parseError(msg.text).value.reason
  {
  }

  /** Everything else is skipped: a frame that is not text, or text that
      neither decodes as a match of type "rfq_match" nor, failing a match,
      as an error of type "error". Text is skipped with its own content,
      other frames with "no text". */
  lemma {:induction false} HandleSkip(msg: Message, parseMatch: string -> Option<RfqMatch>, parseError: string -> Option<RfqError>)
    ensures Handle(msg, parseMatch, parseError).Skip? <==>
      || !msg.Text?
      || (parseMatch(msg.text).Some? && parseMatch(msg.text).value.channel != MATCH_TYPE)
      || (parseMatch(msg.text).None? &&
          (parseError(msg.text).None? || parseError(msg.text).value.channel != ERROR_TYPE))
    ensures Handle(msg, parseMatch, parseError).Skip? ==>
      Handle(msg, parseMatch, parseError).message == if msg.Text? then msg.text else "no text"
  {
  }

  /** Once the text decodes as a match, the error decoder is never consulted:
      any two error decoders give the same record. */
  lemma {:induction false} MatchParseWins(msg: Message, parseMatch: string -> Option<RfqMatch>,
                       parseError: string -> Option<RfqError>, otherError: string -> Option<RfqError>)
    requires msg.Text? && parseMatch(msg.text).Some?
    ensures Handle(msg, parseMatch, parseError) == Handle(msg, parseMatch, otherError)
    ensures parseMatch(msg.text).value.channel != MATCH_TYPE ==> Handle(msg, parseMatch, parseError) == Skip(msg.text)
  {
  }

  /** The subscription frame is a text frame; fed back to `handle` with decoders that reject it, it is
      skipped with its own text. */
  lemma {:induction false} SubscribeFrame(parseMatch: string -> Option<RfqMatch>, parseError: string -> Option<RfqError>)
    requires parseMatch(SUBSCRIBE_TEXT).None? && parseError(SUBSCRIBE_TEXT).None?
    ensures Subscribe().Text?
    ensures Handle(Subscribe(), parseMatch, parseError) == Skip(Subscribe().text)
  {
  }

  // ----- The RfqMatch table -----

  function StringField(name: string): FieldDecl {
    FieldDecl(name, StringLike(OwnedString), [])
  }

  /** `#[derive(Persist)] struct RfqMatch`; `channel` carries
      `#[serde(rename = "type")]`, which the derive does not read. */
  const RFQ_MATCH_TYPE := NamedStruct("RfqMatch", [
    FieldDecl("channel", StringLike(OwnedString), [Attribute("serde", Some([NameValue("rename", LitStr("type"))]))]),
    StringField("maker_order_id"),
    StringField("taker_order_id"),
    FieldDecl("time", DateTimeType, []),
    FieldDecl("trade_id", Prim(PInt(U64)), []),
    StringField("product_id"),
    FieldDecl("size", DecimalType, []),
    FieldDecl("price", DecimalType, []),
    StringField("side")])

  /** A match as the value the derive's `append` walks. */
  function RfqMatchValue(m: RfqMatch): (v: Value)
    ensures WellTyped(RFQ_MATCH_TYPE, v)
  {
    var v := StructV([TextV(m.channel), TextV(m.makerOrderId), TextV(m.takerOrderId), DateTimeV(m.time),
                      IntV(m.tradeId), TextV(m.productId), DecimalV(m.size), DecimalV(m.price), TextV(m.side)]);
    assert forall i :: 0 <= i < 9 ==> WellTyped(RFQ_MATCH_TYPE.fields[i].ty, v.fieldValues[i]) by {
      forall i | 0 <= i < 9
        ensures WellTyped(RFQ_MATCH_TYPE.fields[i].ty, v.fieldValues[i])
      {
        assert i in {0, 1, 2, 3, 4, 5, 6, 7, 8};
      }
    }
    v
  }

  function StringColumn(name: string): Column {
    Column(name, BYTE_ARRAY, REQUIRED, Some(StringType))
  }

  /** The nine columns of the table. */
  const RFQ_MATCH_COLUMNS := [
    StringColumn("channel"),
    StringColumn("maker_order_id"),
    StringColumn("taker_order_id"),
    Column("time", INT64, REQUIRED, Some(Timestamp(true, NANOS))),
    Column("trade_id", INT64, REQUIRED, None),
    StringColumn("product_id"),
    Column("size", DOUBLE, REQUIRED, Some(StringType)),
    Column("price", DOUBLE, REQUIRED, Some(StringType)),
    StringColumn("side")]

  /** A match as the row a file stores: the timestamp's nanoseconds (0 when
      out of range) and the trade id read as i64. */
  function RfqMatchRow(m: RfqMatch): seq<Field> {
    [Str(m.channel), Str(m.makerOrderId), Str(m.takerOrderId), Long(m.time.GetOr(0)),
     Long(I64FromU64(m.tradeId)), Str(m.productId), Double(m.size), Double(m.price), Str(m.side)]
  }

  /** Blocks of one element each flatten to their elements. */
  lemma {:induction false} FlattenSingletons<T>(ss: seq<seq<T>>)
    requires forall i :: 0 <= i < |ss| ==> |ss[i]| == 1
    ensures Flatten(ss) == seq(|ss|, i requires 0 <= i < |ss| => ss[i][0])
    decreases |ss|
  {
    if |ss| > 0 {
      FlattenSingletons(ss[1..]);
    }
  }

  /** Every field of the table is a leaf named after itself, with no
      logical type of its own. */
  lemma {:induction false} RfqMatchFieldColumns()
    ensures forall i :: 0 <= i < 9 ==>
      FieldColumns(RFQ_MATCH_TYPE.fields[i], None, None) == [RFQ_MATCH_COLUMNS[i]]
  {
    var fs := RFQ_MATCH_TYPE.fields;
    assert ParsePersistAttributes(fs[0].attrs) == DefaultAttributes;
    assert FieldLogicalType(fs[0].attrs) == None;
    assert FieldLogicalType([]) == None;
    assert FieldColumns(fs[0], None, None) == [RFQ_MATCH_COLUMNS[0]];
    assert FieldColumns(fs[1], None, None) == [RFQ_MATCH_COLUMNS[1]];
    assert FieldColumns(fs[2], None, None) == [RFQ_MATCH_COLUMNS[2]];
    assert FieldColumns(fs[3], None, None) == [RFQ_MATCH_COLUMNS[3]];
    assert FieldColumns(fs[4], None, None) == [RFQ_MATCH_COLUMNS[4]];
    assert FieldColumns(fs[5], None, None) == [RFQ_MATCH_COLUMNS[5]];
    assert FieldColumns(fs[6], None, None) == [RFQ_MATCH_COLUMNS[6]];
    assert FieldColumns(fs[7], None, None) == [RFQ_MATCH_COLUMNS[7]];
    assert FieldColumns(fs[8], None, None) == [RFQ_MATCH_COLUMNS[8]];
  }

  /** Blocks that are each one given element flatten to those elements. */
  lemma {:induction false} SingletonBlocks<T>(blocks: seq<seq<T>>, row: seq<T>)
    requires |blocks| == |row|
    requires forall i :: 0 <= i < |row| ==> blocks[i] == [row[i]]
    ensures Flatten(blocks) == row
  {
    FlattenSingletons(blocks);
  }

  /** A struct whose every field is one leaf column has those columns as its schema. */
  lemma {:induction false} LeafStructSchema(name: string, fs: seq<FieldDecl>, vs: seq<Value>, cols: seq<Column>)
    requires WellTyped(NamedStruct(name, fs), StructV(vs))
    requires |fs| == |cols|
    requires forall i :: 0 <= i < |fs| ==> FieldColumns(fs[i], None, None) == [cols[i]]
    ensures Schema(NamedStruct(name, fs), None, None, None) == Ok(cols)
  {
    NamedStructLayout(name, fs, vs, None, None, None);
    SingletonBlocks(seq(|fs|, i requires 0 <= i < |fs| => FieldColumns(fs[i], None, None)), cols);
  }

  /** A struct whose every field is one leaf value appends those values. */
  lemma {:induction false} LeafStructAppend(name: string, fs: seq<FieldDecl>, vs: seq<Value>, row: seq<Field>)
    requires WellTyped(NamedStruct(name, fs), StructV(vs))
    requires |fs| == |row|
    requires forall i :: 0 <= i < |fs| ==> FieldValues(fs[i], vs[i]) == [row[i]]
    ensures Append(NamedStruct(name, fs), StructV(vs)) == row
  {
    NamedStructLayout(name, fs, vs, None, None, None);
    SingletonBlocks(seq(|fs|, i requires 0 <= i < |fs| => FieldValues(fs[i], vs[i])), row);
  }

  lemma {:induction false} RfqMatchSchema()
    ensures Schema(RFQ_MATCH_TYPE, None, None, None) == Ok(RFQ_MATCH_COLUMNS)
  {
    var m := RfqMatch("", "", "", None, 0, "", 0, 0, "");
    RfqMatchFieldColumns();
    LeafStructSchema("RfqMatch", RFQ_MATCH_TYPE.fields, RfqMatchValue(m).fieldValues, RFQ_MATCH_COLUMNS);
  }

  /** `RfqMatch` persists as nine REQUIRED columns in declaration order, named
      after the Rust fields ("channel", not "type"): five strings, the time
      as a UTC nanosecond timestamp, the trade id as INT64 and size and price
      as DOUBLE. */
  lemma {:induction false} RfqMatchLayout()
    ensures SelfNaming(RFQ_MATCH_TYPE) && Width(RFQ_MATCH_TYPE) == 9
    ensures Schema(RFQ_MATCH_TYPE, None, None, None) == Ok(RFQ_MATCH_COLUMNS)
  {
    RfqMatchSchema();
    SchemaColumnsGiveWidth(RFQ_MATCH_TYPE, RFQ_MATCH_COLUMNS);
    assert |RFQ_MATCH_COLUMNS| == 9;
  }

  /** A type whose unprefixed schema succeeds names its own leaves and has as
      many columns as that schema. */
  lemma {:induction false} SchemaColumnsGiveWidth(t: TypeDesc, cols: seq<Column>)
    requires Schema(t, None, None, None) == Ok(cols)
    ensures SelfNaming(t) && Width(t) == |cols|
  {
    SchemaShape(t, None, None, None);
  }

  /** The fields `append` pushes for a match, before the file reads them back. */
  function RfqMatchPushed(m: RfqMatch): seq<Field> {
    [Str(m.channel), Str(m.makerOrderId), Str(m.takerOrderId), ULong(DateTimeBits(m.time)),
     ULong(m.tradeId), Str(m.productId), Double(m.size), Double(m.price), Str(m.side)]
  }

  /** Each field of a match pushes exactly its own leaf value. */
  lemma {:induction false} RfqMatchFieldValues(m: RfqMatch)
    ensures forall i :: 0 <= i < 9 ==>
      FieldValues(RFQ_MATCH_TYPE.fields[i], RfqMatchValue(m).fieldValues[i]) == [RfqMatchPushed(m)[i]]
  {
    RfqMatchTexts(m);
    RfqMatchNumbers(m);
    RfqMatchAmounts(m);
  }

  lemma {:induction false} RfqMatchTexts(m: RfqMatch)
    ensures FieldValues(RFQ_MATCH_TYPE.fields[0], RfqMatchValue(m).fieldValues[0]) == [RfqMatchPushed(m)[0]]
    ensures FieldValues(RFQ_MATCH_TYPE.fields[1], RfqMatchValue(m).fieldValues[1]) == [RfqMatchPushed(m)[1]]
    ensures FieldValues(RFQ_MATCH_TYPE.fields[2], RfqMatchValue(m).fieldValues[2]) == [RfqMatchPushed(m)[2]]
  {
    var fs := RFQ_MATCH_TYPE.fields;
    var vs := RfqMatchValue(m).fieldValues;
    RfqMatchFieldColumns();
    assert Append(fs[0].ty, vs[0]) == [RfqMatchPushed(m)[0]];
    assert Append(fs[1].ty, vs[1]) == [RfqMatchPushed(m)[1]];
    assert Append(fs[2].ty, vs[2]) == [RfqMatchPushed(m)[2]];
  }

  lemma {:induction false} RfqMatchNumbers(m: RfqMatch)
    ensures FieldValues(RFQ_MATCH_TYPE.fields[3], RfqMatchValue(m).fieldValues[3]) == [RfqMatchPushed(m)[3]]
    ensures FieldValues(RFQ_MATCH_TYPE.fields[4], RfqMatchValue(m).fieldValues[4]) == [RfqMatchPushed(m)[4]]
    ensures FieldValues(RFQ_MATCH_TYPE.fields[5], RfqMatchValue(m).fieldValues[5]) == [RfqMatchPushed(m)[5]]
  {
    var fs := RFQ_MATCH_TYPE.fields;
    var vs := RfqMatchValue(m).fieldValues;
    RfqMatchFieldColumns();
    assert Append(fs[3].ty, vs[3]) == [RfqMatchPushed(m)[3]];
    assert Append(fs[4].ty, vs[4]) == [RfqMatchPushed(m)[4]];
    assert Append(fs[5].ty, vs[5]) == [RfqMatchPushed(m)[5]];
  }

  lemma {:induction false} RfqMatchAmounts(m: RfqMatch)
    ensures FieldValues(RFQ_MATCH_TYPE.fields[6], RfqMatchValue(m).fieldValues[6]) == [RfqMatchPushed(m)[6]]
    ensures FieldValues(RFQ_MATCH_TYPE.fields[7], RfqMatchValue(m).fieldValues[7]) == [RfqMatchPushed(m)[7]]
    ensures FieldValues(RFQ_MATCH_TYPE.fields[8], RfqMatchValue(m).fieldValues[8]) == [RfqMatchPushed(m)[8]]
  {
    var fs := RFQ_MATCH_TYPE.fields;
    var vs := RfqMatchValue(m).fieldValues;
    RfqMatchFieldColumns();
    assert Append(fs[6].ty, vs[6]) == [RfqMatchPushed(m)[6]];
    assert Append(fs[7].ty, vs[7]) == [RfqMatchPushed(m)[7]];
    assert Append(fs[8].ty, vs[8]) == [RfqMatchPushed(m)[8]];
  }

  /** A match is appended as one field per column, and the file reads it
      back as `RfqMatchRow`: the timestamp survives the u64 round trip. */
  lemma {:induction false} RfqMatchFields(m: RfqMatch)
    ensures Append(RFQ_MATCH_TYPE, RfqMatchValue(m)) == RfqMatchPushed(m)
    ensures NormalizeAll(Append(RFQ_MATCH_TYPE, RfqMatchValue(m))) == RfqMatchRow(m)
  {
    RfqMatchFieldValues(m);
    LeafStructAppend("RfqMatch", RFQ_MATCH_TYPE.fields, RfqMatchValue(m).fieldValues, RfqMatchPushed(m));
    RfqMatchReadBack(m);
  }

  lemma {:induction false} RfqMatchReadBack(m: RfqMatch)
    ensures NormalizeAll(RfqMatchPushed(m)) == RfqMatchRow(m)
  {
    DateTimeStoredAsNanos(m.time);
  }
}
