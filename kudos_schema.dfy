/**
 * The validation contract shared by client and server: the sender header, the
 * create-kudos body, the list query and the Kudos DTO, each as a decision on a
 * raw input together with the normalised value `safeParse` hands on (the
 * trimmed message, the defaulted limit and offset), or the failing fields.
 */
module KudosSchema {
  import opened Wrappers
  import opened JsStrings
  import opened JsDate
  import opened KudosTypes

  // ---------------------------------------------------------------------------
  // Raw input as zod receives it
  // ---------------------------------------------------------------------------

  /** One property of an incoming value: missing, a string, an integral number,
      or anything else (null, a boolean, a fraction, an array, an object). */
  datatype Field = Absent | Str(s: string) | Num(n: int) | OtherValue

  /** A request body: an object with the three properties zod reads (others are
      stripped), or something that is not an object at all. */
  datatype RawBody = BodyObject(receiverId: Field, message: Field, category: Field) | BodyNotAnObject

  /** A query: an object with the two properties zod reads, or not an object. */
  datatype RawQuery = QueryObject(limit: Field, offset: Field) | QueryNotAnObject

  /** The properties the schemas name in their issues. */
  datatype FieldName = SenderId | ReceiverId | MessageField | CategoryField | Limit | Offset

  /** A failed `safeParse` as `error.flatten()` groups it: whether the value as a
      whole was rejected, and the names of the properties that were. */
  datatype Issues = Issues(formErrors: bool, fieldErrors: set<FieldName>)

  // ---------------------------------------------------------------------------
  // z.uuid(): the layout of section 4 of RFC 9562
  // ---------------------------------------------------------------------------

  predicate IsHexDigit(c: char) {
    ('0' <= c <= '9') || ('a' <= c <= 'f') || ('A' <= c <= 'F')
  }

  /** Positions of the four hyphens in 8-4-4-4-12 layout. */
  predicate IsHyphenPosition(i: int) {
    i == 8 || i == 13 || i == 18 || i == 23
  }

  /** Thirty-two hexadecimal digits in groups of 8, 4, 4, 4 and 12, separated by hyphens. */
  predicate IsUuid(s: string) {
    |s| == 36 && forall i :: 0 <= i < 36 ==> if IsHyphenPosition(i) then s[i] == '-' else IsHexDigit(s[i])
  }

  // ---------------------------------------------------------------------------
  // SenderIdHeaderSchema
  // ---------------------------------------------------------------------------

  /** `SenderIdHeaderSchema.safeParse({ senderId: header })`: the header value
      when it is present and a UUID; otherwise a failure on `senderId`. */
  function ParseSenderIdHeader(header: Option<string>): (r: Result<string, Issues>)
    ensures r.Ok? <==> header.Some? && IsUuid(header.value)
    ensures r.Ok? ==> r.value == header.value
    ensures r.Err? ==> r.error == Issues(false, {SenderId})
  {
    if header.Some? && IsUuid(header.value) then Ok(header.value) else Err(Issues(false, {SenderId}))
  }

  /** The ids the tests use are UUIDs; `not-a-uuid` is not. */
  lemma UuidFixtures()
    ensures IsUuid("11111111-1111-4111-8111-111111111111")
    ensures IsUuid("22222222-2222-4222-8222-222222222222")
    ensures !IsUuid("not-a-uuid")
  {
    SenderFixtureIsUuid();
    ReceiverFixtureIsUuid();
  }

  lemma SenderFixtureIsUuid()
    ensures IsUuid("11111111-1111-4111-8111-111111111111")
  {
  }

  lemma ReceiverFixtureIsUuid()
    ensures IsUuid("22222222-2222-4222-8222-222222222222")
  {
  }

  // ---------------------------------------------------------------------------
  // CreateKudosBodySchema
  // ---------------------------------------------------------------------------

  const MinMessageLength: nat := 1
  const MaxMessageLength: nat := 500

  /** A parsed create-kudos body (`CreateKudosBodyDto`). */
  datatype CreateKudosBody = CreateKudosBody(receiverId: string, message: string, category: KudosCategory)

  /** What every accepted body satisfies: a UUID receiver, a message with no
      whitespace at either end and 1 to 500 UTF-16 code units long. */
  predicate IsAcceptedBody(b: CreateKudosBody) {
    IsUuid(b.receiverId) && IsTrimmed(b.message) && MinMessageLength <= Utf16Length(b.message) <= MaxMessageLength
  }

  /** `z.uuid()` on one property. */
  function ParseUuidField(f: Field): (r: Option<string>)
    ensures r.Some? <==> f.Str? && IsUuid(f.s)
    ensures r.Some? ==> r.value == f.s
  {
    if f.Str? && IsUuid(f.s) then Some(f.s) else None
  }

  /** `z.string().trim().min(1).max(500)`: the string is trimmed first and the
      bounds apply to what is left, which is the parsed value. */
  function ParseMessage(f: Field): (r: Option<string>)
    ensures r.Some? <==> f.Str? && MinMessageLength <= Utf16Length(Trim(f.s)) <= MaxMessageLength
    ensures r.Some? ==> r.value == Trim(f.s)
  {
    if f.Str? && MinMessageLength <= Utf16Length(Trim(f.s)) <= MaxMessageLength then Some(Trim(f.s)) else None
  }

  /** `z.enum(KUDOS_CATEGORIES)`: exactly one of the three labels. */
  function ParseCategory(f: Field): (r: Option<KudosCategory>)
    ensures r.Some? <==> f.Str? && IsKudosCategory(f.s)
    ensures r.Some? ==> r.value == f.s
  {
    if f.Str? && IsKudosCategory(f.s) then Some(f.s) else None
  }

  /** `CreateKudosBodySchema.safeParse(body)`. Success yields an accepted body
      built from the three properties with the message trimmed; failure names
      every property that failed, or the whole value when it is not an object. */
  function ParseCreateKudosBody(body: RawBody): (r: Result<CreateKudosBody, Issues>)
    ensures r.Ok? <==> body.BodyObject? && ParseUuidField(body.receiverId).Some?
                       && ParseMessage(body.message).Some? && ParseCategory(body.category).Some?
    ensures r.Ok? ==> IsAcceptedBody(r.value)
    ensures r.Ok? ==> r.value.receiverId == body.receiverId.s && r.value.message == Trim(body.message.s)
                      && r.value.category == body.category.s
  {
    match body
    case BodyNotAnObject => Err(Issues(true, {}))
    case BodyObject(receiverField, messageField, categoryField) =>
      var receiverId, message, category :=
        ParseUuidField(receiverField), ParseMessage(messageField), ParseCategory(categoryField);
      if receiverId.Some? && message.Some? && category.Some? then
        TrimIdempotent(messageField.s);
        Ok(CreateKudosBody(receiverId.value, message.value, category.value))
      else
        Err(Issues(false, FailedBodyFields(receiverId.Some?, message.Some?, category.Some?)))
  }

  /** The names of the body's properties that did not pass. */
  function FailedBodyFields(receiverOk: bool, messageOk: bool, categoryOk: bool): (s: set<FieldName>)
    ensures ReceiverId in s <==> !receiverOk
    ensures MessageField in s <==> !messageOk
    ensures CategoryField in s <==> !categoryOk
    ensures s <= {ReceiverId, MessageField, CategoryField}
  {
    (if receiverOk then {} else {ReceiverId})
    + (if messageOk then {} else {MessageField})
    + (if categoryOk then {} else {CategoryField})
  }

  /** A rejected body's issues name the whole value when it is not an object,
      and otherwise exactly the properties that failed. */
  lemma BodyIssuesNameFailedFields(body: RawBody)
    requires ParseCreateKudosBody(body).Err?
    ensures var issues := ParseCreateKudosBody(body).error;
      && (issues.formErrors <==> body.BodyNotAnObject?)
      && (body.BodyObject? ==>
            && (ReceiverId in issues.fieldErrors <==> ParseUuidField(body.receiverId).None?)
            && (MessageField in issues.fieldErrors <==> ParseMessage(body.message).None?)
            && (CategoryField in issues.fieldErrors <==> ParseCategory(body.category).None?)
            && issues.fieldErrors <= {ReceiverId, MessageField, CategoryField})
  {
    if body.BodyObject? {
      var receiverId, message, category :=
        ParseUuidField(body.receiverId), ParseMessage(body.message), ParseCategory(body.category);
      assert ParseCreateKudosBody(body).error.fieldErrors
        == FailedBodyFields(receiverId.Some?, message.Some?, category.Some?);
    }
  }

  /** The body as it reaches the server after `JSON.stringify` on the client
      and `express.json()` on the server: three string properties. */
  function ToRawBody(b: CreateKudosBody): RawBody {
    BodyObject(Str(b.receiverId), Str(b.message), Str(b.category))
  }

  /** Parsing an accepted body again gives the same body: trimming is
      idempotent and the bounds still hold. */
  lemma ReparseAcceptedBody(b: CreateKudosBody)
    requires IsAcceptedBody(b)
    ensures ParseCreateKudosBody(ToRawBody(b)) == Ok(b)
  {
    TrimmedIsFixed(b.message);
  }

  /** In particular a body that parsing produced parses again to itself. */
  lemma ParseIsIdempotent(body: RawBody)
    requires ParseCreateKudosBody(body).Ok?
    ensures ParseCreateKudosBody(ToRawBody(ParseCreateKudosBody(body).value)) == ParseCreateKudosBody(body)
  {
    ReparseAcceptedBody(ParseCreateKudosBody(body).value);
  }

  /** A message made only of whitespace, the empty message included, is
      rejected; so is one whose trimmed form is longer than 500. */
  lemma MessageRejections(s: string)
    ensures AllWhitespace(s) ==> ParseMessage(Str(s)).None?
    ensures Utf16Length(Trim(s)) > MaxMessageLength ==> ParseMessage(Str(s)).None?
  {
    TrimEmptyIffAllWhitespace(s);
  }

  /** A message of `n` letters 'a' is accepted as it is exactly when `n` is
      between 1 and 500; 500 is accepted, 501 and the empty message are not. */
  lemma RepeatedLetterMessage(n: nat)
    ensures ParseMessage(Str(Repeat('a', n))).Some? <==> 1 <= n <= MaxMessageLength
    ensures ParseMessage(Str(Repeat('a', n))).Some? ==> ParseMessage(Str(Repeat('a', n))).value == Repeat('a', n)
  {
    RepeatIsTrimmed(n);
    RepeatLength(n);
  }

  lemma RepeatIsTrimmed(n: nat)
    ensures Trim(Repeat('a', n)) == Repeat('a', n)
  {
    var s := Repeat('a', n);
    assert IsTrimmed(s) by {
      if n > 0 { assert s[0] == 'a' && s[n - 1] == 'a'; }
    }
    TrimmedIsFixed(s);
  }

  lemma RepeatLength(n: nat)
    ensures Utf16Length(Repeat('a', n)) == n
  {
    var s := Repeat('a', n);
    assert AllBmp(s);
    Utf16LengthOfBmp(s);
  }

  // ---------------------------------------------------------------------------
  // ListKudosQuerySchema
  // ---------------------------------------------------------------------------

  const DefaultLimit: int := 20
  const MaxLimit: int := 100
  const DefaultOffset: int := 0

  /** `Number.MAX_SAFE_INTEGER`; zod's `.int()` accepts only safe integers. */
  const MaxSafeInteger: int := 9007199254740991

  /** A parsed list query (`ListKudosQueryDto`). */
  datatype ListKudosQuery = ListKudosQuery(limit: int, offset: int)

  /** `z.coerce.number()` followed by `.int()`: the integral value `Number(x)`
      gives, for the values the model captures. */
  function CoerceInteger(f: Field): Option<int> {
    match f
    case Str(s) => NumberFromString(s)
    case Num(n) => Some(n)
    case _ => None
  }

  /** `z.coerce.number().int().min(1).max(100).default(20)`. */
  function ParseLimit(f: Field): (r: Option<int>)
    ensures f.Absent? ==> r == Some(DefaultLimit)
    ensures !f.Absent? ==> (r.Some? <==> CoerceInteger(f).Some? && 1 <= CoerceInteger(f).value <= MaxLimit)
    ensures !f.Absent? && r.Some? ==> r.value == CoerceInteger(f).value
  {
    if f.Absent? then Some(DefaultLimit)
    else
      var n := CoerceInteger(f);
      if n.Some? && 1 <= n.value <= MaxLimit then n else None
  }

  /** `z.coerce.number().int().min(0).default(0)`. */
  function ParseOffset(f: Field): (r: Option<int>)
    ensures f.Absent? ==> r == Some(DefaultOffset)
    ensures !f.Absent? ==> (r.Some? <==> CoerceInteger(f).Some? && 0 <= CoerceInteger(f).value <= MaxSafeInteger)
    ensures !f.Absent? && r.Some? ==> r.value == CoerceInteger(f).value
  {
    if f.Absent? then Some(DefaultOffset)
    else
      var n := CoerceInteger(f);
      if n.Some? && 0 <= n.value <= MaxSafeInteger then n else None
  }

  /** `ListKudosQuerySchema.safeParse(query)`: a limit in [1, 100] and an offset
      of at least 0, each defaulted when absent; failure names the properties
      that failed. */
  function ParseListKudosQuery(query: RawQuery): (r: Result<ListKudosQuery, Issues>)
    ensures r.Ok? ==> 1 <= r.value.limit <= MaxLimit && 0 <= r.value.offset
    ensures r.Ok? <==> query.QueryObject? && ParseLimit(query.limit).Some? && ParseOffset(query.offset).Some?
    ensures r.Ok? ==> r.value == ListKudosQuery(ParseLimit(query.limit).value, ParseOffset(query.offset).value)
    ensures r.Err? ==> (r.error.formErrors <==> query.QueryNotAnObject?)
    ensures r.Err? && query.QueryObject? ==>
      && (Limit in r.error.fieldErrors <==> ParseLimit(query.limit).None?)
      && (Offset in r.error.fieldErrors <==> ParseOffset(query.offset).None?)
  {
    match query
    case QueryNotAnObject => Err(Issues(true, {}))
    case QueryObject(limitField, offsetField) =>
      var limit, offset := ParseLimit(limitField), ParseOffset(offsetField);
      if limit.Some? && offset.Some? then Ok(ListKudosQuery(limit.value, offset.value))
      else
        Err(Issues(false,
          (if limit.None? then {Limit} else {}) + (if offset.None? then {Offset} else {})))
  }

  /** A limit written in decimal is accepted exactly when it is in [1, 100],
      and then it parses to that number. */
  lemma DecimalLimit(n: nat)
    ensures ParseLimit(Str(DecimalString(n))) == if 1 <= n <= MaxLimit then Some(n) else None
  {
    NumberOfDecimalString(n);
  }

  /** An offset written in decimal is accepted exactly when it is a safe
      integer, and then it parses to that number. */
  lemma DecimalOffset(n: nat)
    ensures ParseOffset(Str(DecimalString(n))) == if n <= MaxSafeInteger then Some(n) else None
  {
    NumberOfDecimalString(n);
  }

  /** A query written in decimal is accepted exactly when both numbers are. */
  lemma DecimalQueryAccepted(limit: nat, offset: nat)
    ensures var r := ParseListKudosQuery(QueryObject(Str(DecimalString(limit)), Str(DecimalString(offset))));
      && (r.Ok? <==> 1 <= limit <= MaxLimit && offset <= MaxSafeInteger)
      && (r.Ok? ==> r.value == ListKudosQuery(limit, offset))
  {
    DecimalLimit(limit);
    DecimalOffset(offset);
  }

  /** A negative offset written in decimal is rejected, whatever the limit. */
  lemma NegativeOffsetRejected(limit: Field, n: nat)
    requires n > 0
    ensures ParseListKudosQuery(QueryObject(limit, Str("-" + DecimalString(n)))).Err?
  {
    NumberOfNegatedDecimalString(n);
  }

  lemma DecimalStringsOfFixtures()
    ensures DecimalString(0) == "0" && DecimalString(1) == "1" && DecimalString(2) == "2"
    ensures DecimalString(10) == "10" && DecimalString(100) == "100" && DecimalString(101) == "101"
  {
    assert DecimalString(10) == DecimalString(1) + [DigitChar(0)];
    assert DecimalString(100) == DecimalString(10) + [DigitChar(0)];
    assert DecimalString(101) == DecimalString(10) + [DigitChar(1)];
  }

  /** An empty query takes the defaults 20 and 0. */
  lemma EmptyQueryDefaults()
    ensures ParseListKudosQuery(QueryObject(Absent, Absent)) == Ok(ListKudosQuery(DefaultLimit, DefaultOffset))
  {
  }

  /** The query cases the server's tests exercise: `limit=0` and `limit=101`
      are rejected, `limit=1` and `limit=100` are accepted. */
  lemma LimitFixtures()
    ensures ParseLimit(Str("0")).None? && ParseLimit(Str("101")).None?
    ensures ParseLimit(Str("1")) == Some(1) && ParseLimit(Str("100")) == Some(100)
  {
    DecimalStringsOfFixtures();
    DecimalLimit(0);
    DecimalLimit(101);
    DecimalLimit(1);
    DecimalLimit(100);
  }

  /** `offset=-1` is rejected, `offset=0` and `offset=2` are accepted. */
  lemma OffsetFixtures()
    ensures ParseOffset(Str("-1")).None?
    ensures ParseOffset(Str("0")) == Some(0) && ParseOffset(Str("2")) == Some(2)
  {
    MinusOneOffset();
    DecimalStringsOfFixtures();
    DecimalOffset(0);
    DecimalOffset(2);
  }

  lemma MinusOneOffset()
    ensures ParseOffset(Str("-1")).None?
  {
    NumberOfNegatedDecimalString(1);
    var m := "-" + DecimalString(1);
    assert DecimalString(1) == [DigitChar(1)];
    assert |m| == 2 && m[0] == '-' && m[1] == '1';
    assert m == "-1";
  }

  // ---------------------------------------------------------------------------
  // KudosDtoSchema
  // ---------------------------------------------------------------------------

  /** `w` digits at position `i` of `s` whose value lies in [lo, hi]. */
  predicate DigitsBetween(s: string, i: nat, w: nat, lo: int, hi: int)
    requires i + w <= |s|
  {
    var g := DigitGroup(s, i, w);
    g.Some? && lo <= g.value <= hi
  }

  /** What follows the minutes: `Z`, or `:ss` and an optional fraction, then `Z`. */
  predicate IsSecondsAndZone(t: string) {
    || t == "Z"
    || (&& |t| >= 4 && t[0] == ':' && DigitsBetween(t, 1, 2, 0, 59) && t[|t| - 1] == 'Z'
        && (|t| == 4 || (|t| >= 6 && t[3] == '.' && AllDigits(t[4..|t| - 1]))))
  }

  /** `z.iso.datetime()`: `YYYY-MM-DDTHH:mm`, optional seconds with an optional
      fraction, and the zone `Z`, with a calendar-valid date. */
  predicate IsIsoDateTime(s: string): (b: bool)
    ensures b ==> |s| >= 17 && s[10] == 'T' && s[|s| - 1] == 'Z'
  {
    && |s| >= 17 && s[4] == '-' && s[7] == '-' && s[10] == 'T' && s[13] == ':'
    && DigitsBetween(s, 0, 4, 0, 9999) && DigitsBetween(s, 5, 2, 1, 12)
    && DigitsBetween(s, 8, 2, 1, DaysInMonth(DigitGroup(s, 0, 4).value, DigitGroup(s, 5, 2).value))
    && DigitsBetween(s, 11, 2, 0, 23) && DigitsBetween(s, 14, 2, 0, 59)
    && IsSecondsAndZone(s[16..])
  }

  /** `KudosDtoSchema`: UUID ids, a category from the set (the type ensures
      it), an ISO timestamp, and any message at all. */
  predicate IsKudosDto(d: Kudos): (b: bool)
    ensures b ==> |d.id| == 36 && |d.senderId| == 36 && |d.receiverId| == 36
    ensures b ==> |d.createdAt| >= 17 && d.createdAt[|d.createdAt| - 1] == 'Z'
  {
    IsUuid(d.id) && IsUuid(d.senderId) && IsUuid(d.receiverId) && IsIsoDateTime(d.createdAt)
  }

  /** Every string `toISOString` produces passes `z.iso.datetime()`. */
  lemma IsoStringIsIsoDateTime(ms: int)
    requires InIsoRange(ms)
    ensures IsIsoDateTime(IsoString(ms))
  {
    var f := FieldsOf(ms);
    var s := RenderIso(f);
    assert Pow10(2) == 100 && Pow10(3) == 1000 && Pow10(4) == 10000;
    PadGroup(s, 0, f.date.year, 4);
    PadGroup(s, 5, f.date.month, 2);
    PadGroup(s, 8, f.date.day, 2);
    PadGroup(s, 11, f.hour, 2);
    PadGroup(s, 14, f.minute, 2);
    var t := s[16..];
    assert t[1..3] == s[17..19] && t[4..|t| - 1] == s[20..23];
    PadGroup(t, 1, f.second, 2);
  }

  // ---------------------------------------------------------------------------
  // The list response
  // ---------------------------------------------------------------------------

  /** `pagination` of a list response; `count` is the number of items on the page. */
  datatype Pagination = Pagination(limit: int, offset: int, count: int)

  /** `ListKudosResponse`. */
  datatype ListKudosResponse = ListKudosResponse(items: seq<Kudos>, pagination: Pagination)
}
