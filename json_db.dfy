/**
 * The JSON "database" kept in scratch storage: a table is a key whose value is
 * a JSON array of records, and the key "<table>_schema" holds a JSON object
 * that maps every field name to a type tag such as "string", "number!" or
 * "email*" ('!' marks a required field, '*' a unique one).
 *
 * JSON text is read and written through the `parse` and `serialize` oracles
 * (Jackson); JsonPath queries over a table are the `select`, `setAt` and
 * `deleteAt` oracles; the e-mail validator and random UUIDs are parameters.
 */
module JsonDb {
  import opened Wrappers
  import opened Text
  import opened Json

  type Uuid = nat

  const StringType := "string"
  const UuidType := "uuid"
  const EmailType := "email"
  const NumberType := "number"
  const BooleanType := "boolean"
  const UniqueMarker := "*"
  const RequiredMarker := "!"
  const IdField := "id"
  const SchemaSuffix := "_schema"

  // ---------------------------------------------------------------------------
  // Text of JSON values

  function DigitText(d: nat): string
    requires d < 10
  {
    [(48 + d) as char]
  }

  /** The decimal digits of a natural number. */
  function NatText(n: nat): (r: string)
    ensures |r| > 0
    ensures forall i :: 0 <= i < |r| ==> '0' <= r[i] <= '9'
  {
    if n < 10 then DigitText(n) else NatText(n / 10) + DigitText(n % 10)
  }

  /** Jackson `asText()`: containers give "", `null` gives "null". */
  function AsText(v: Json): string
  {
    match v
    case JNull => "null"
    case JBool(b) => if b then "true" else "false"
    case JNumber(n) => if n < 0 then "-" + NatText(-n) else NatText(n)
    case JText(s) => s
    case JArray(_) => ""
    case JObject(_) => ""
  }

  predicate IsHex(c: char)
  {
    '0' <= c <= '9' || 'a' <= c <= 'f' || 'A' <= c <= 'F'
  }

  /** The UUID pattern: 8-4-4-4-12 hexadecimal digits separated by '-'. */
  predicate IsUuidText(s: string)
  {
    |s| == 36
    && forall i :: 0 <= i < 36 ==> if i == 8 || i == 13 || i == 18 || i == 23 then s[i] == '-' else IsHex(s[i])
  }

  /** The text of a value that is not a JSON string never has the UUID shape. */
  lemma NonTextIsNoUuid(v: Json)
    requires !v.JText?
    ensures !IsUuidText(AsText(v))
  {
    if v.JNumber? {
      var s := AsText(v);
      if v.n < 0 {
        assert s[0] == '-';
      } else if |s| == 36 {
        assert '0' <= s[8] <= '9';
      }
    }
  }

  // ---------------------------------------------------------------------------
  // Schemas

  /**
   * A schema is valid iff the value each field name looks up is text and the
   * field "id" has the type "uuid".
   */
  predicate SchemaValid(schema: Json)
  {
    schema.JObject?
    && (forall i :: 0 <= i < |schema.fields| ==> Get(schema, schema.fields[i].0).value.JText?)
    && Get(schema, IdField) == Some(JText(UuidType))
  }

  /** `validateSchema`: the scan over the schema's field names. */
  method ValidateSchema(schema: Json) returns (r: Result<(), Failure>)
    ensures r.Ok? <==> SchemaValid(schema)
    ensures r.Err? ==> r.error == InvalidFieldValue
  {
    var names := FieldNames(schema);
    var foundIdField := false;
    var i := 0;
    while i < |names|
      invariant 0 <= i <= |names|
      invariant forall k :: 0 <= k < i ==> Get(schema, schema.fields[k].0).value.JText?
      invariant foundIdField <==> exists k :: 0 <= k < i && names[k] == IdField && Get(schema, IdField) == Some(JText(UuidType))
    {
      var value := Get(schema, names[i]);
      assert value.Some?;
      if !value.value.JText? {
        return Err(InvalidFieldValue);
      }
      if names[i] == IdField && value.value.s == UuidType {
        foundIdField := true;
      }
      i := i + 1;
    }
    if !foundIdField {
      return Err(InvalidFieldValue);
    }
    r := Ok(());
  }

  // ---------------------------------------------------------------------------
  // Fields

  /**
   * `defaultValueForField`: a required field has no default; otherwise the
   * first type word found, in the order string, email, number, boolean, uuid,
   * decides the default; `freshUuid` is the random UUID drawn for a uuid field.
   */
  function DefaultValueForField(fieldType: string, freshUuid: string): Result<Json, Failure>
  {
    if Contains(fieldType, RequiredMarker) then Err(InvalidDataType)
    else if Contains(fieldType, StringType) then Ok(JText(""))
    else if Contains(fieldType, EmailType) then Ok(JText(""))
    else if Contains(fieldType, NumberType) then Ok(JNumber(0))
    else if Contains(fieldType, BooleanType) then Ok(JBool(false))
    else if Contains(fieldType, UuidType) then Ok(JText(freshUuid))
    else Err(InvalidDataType)
  }

  /**
   * The rows that the JsonPath filter `$[?(@.<field> == '<text>')]` selects,
   * for a text without a quote (`ValidateField` refuses the others first).
   */
  function MatchingRows(rows: seq<Json>, fieldName: string, text: string): (r: seq<Json>)
    ensures forall k :: 0 <= k < |r| ==> r[k] in rows && Get(r[k], fieldName) == Some(JText(text))
    ensures forall k :: 0 <= k < |rows| && Get(rows[k], fieldName) == Some(JText(text)) ==> rows[k] in r
  {
    if rows == [] then []
    else if Get(rows[0], fieldName) == Some(JText(text)) then [rows[0]] + MatchingRows(rows[1..], fieldName, text)
    else MatchingRows(rows[1..], fieldName, text)
  }

  /**
   * `validateField`: the type checks in the order `validateField` makes them,
   * then, on insert only, the uniqueness check of a '*' field against the
   * table's rows. That check pastes the value's text between quotes into a
   * JsonPath filter, so a text holding a quote makes the filter unreadable
   * and the JsonPath read fails.
   */
  function ValidateField(fieldName: string, schemaType: string, value: Json, fieldIsUnique: bool,
                         rows: seq<Json>, updateOperation: bool, isEmail: string -> bool): Result<(), Failure>
  {
    if Contains(schemaType, StringType) && !value.JText? then Err(InvalidDataType)
    else if Contains(schemaType, EmailType) && !value.JText? && isEmail(AsText(value)) then Err(InvalidDataType)
    else if Contains(schemaType, NumberType) && !value.JNumber? then Err(InvalidDataType)
    else if Contains(schemaType, BooleanType) && !value.JBool? then Err(InvalidDataType)
    else if Contains(schemaType, UuidType) && !value.JText? && !IsUuidText(AsText(value)) then Err(InvalidDataType)
    else if fieldIsUnique && !updateOperation && '\'' in AsText(value) then Err(InvalidJsonPathQuery)
    else if fieldIsUnique && !updateOperation && !IsBlank(AsText(value))
            && MatchingRows(rows, fieldName, AsText(value)) != [] then Err(ResourceAlreadyExists)
    else Ok(())
  }

  /**
   * The kind checks: a string, number or boolean field demands that JSON kind,
   * a uuid field demands a JSON string, and an email or uuid field takes any
   * JSON string (the e-mail and UUID pattern tests only run on non-strings).
   */
  lemma FieldKindChecks(fieldName: string, schemaType: string, value: Json, fieldIsUnique: bool,
                        rows: seq<Json>, updateOperation: bool, isEmail: string -> bool)
    ensures (Contains(schemaType, StringType) && !value.JText?)
            || (Contains(schemaType, NumberType) && !value.JNumber?)
            || (Contains(schemaType, BooleanType) && !value.JBool?)
            || (Contains(schemaType, UuidType) && !value.JText?)
            ==> ValidateField(fieldName, schemaType, value, fieldIsUnique, rows, updateOperation, isEmail) == Err(InvalidDataType)
    ensures schemaType in {EmailType, UuidType} && value.JText? && !fieldIsUnique
            ==> ValidateField(fieldName, schemaType, value, fieldIsUnique, rows, updateOperation, isEmail) == Ok(())
  {
    if !value.JText? {
      NonTextIsNoUuid(value);
    }
    if schemaType in {EmailType, UuidType} {
      MissingCharNotContained(schemaType, StringType, 0);
      MissingCharNotContained(schemaType, NumberType, 0);
      MissingCharNotContained(schemaType, BooleanType, 0);
    }
  }

  /**
   * The uniqueness check: on insert a '*' field whose non-blank text some row
   * already holds is refused; an update never runs the check.
   */
  lemma UniqueFieldCheck(fieldName: string, schemaType: string, value: Json, rows: seq<Json>, isEmail: string -> bool)
    ensures ValidateField(fieldName, schemaType, value, true, rows, true, isEmail) != Err(ResourceAlreadyExists)
    ensures ValidateField(fieldName, schemaType, value, true, rows, false, isEmail).Ok?
            ==> '\'' !in AsText(value)
                && (IsBlank(AsText(value)) || forall k :: 0 <= k < |rows| ==> Get(rows[k], fieldName) != Some(JText(AsText(value))))
  {
  }

  /** On insert, a unique string field whose text holds a quote is refused as an invalid JsonPath query. */
  lemma QuotedUniqueValueRefused(fieldName: string, rows: seq<Json>, isEmail: string -> bool)
    ensures ValidateField(fieldName, StringType, JText("O'Brien"), true, rows, false, isEmail) == Err(InvalidJsonPathQuery)
  {
    ContainsItself(StringType);
    MissingCharNotContained(StringType, NumberType, 1);
    MissingCharNotContained(StringType, BooleanType, 1);
    assert "O'Brien"[1] == '\'';
  }

  /*
   * The default each type tag gets, and that the defaults of the plain types
   * pass their own type's check.
   */

  lemma StringDefault(fieldName: string, freshUuid: string, rows: seq<Json>, updateOperation: bool, isEmail: string -> bool)
    ensures DefaultValueForField(StringType, freshUuid) == Ok(JText(""))
    ensures ValidateField(fieldName, StringType, JText(""), false, rows, updateOperation, isEmail) == Ok(())
  {
    ContainsItself(StringType);
    MissingCharNotContained(StringType, RequiredMarker, 0);
    MissingCharNotContained(StringType, NumberType, 1);
    MissingCharNotContained(StringType, BooleanType, 1);
  }

  lemma EmailDefault(fieldName: string, freshUuid: string, rows: seq<Json>, updateOperation: bool, isEmail: string -> bool)
    ensures DefaultValueForField(EmailType, freshUuid) == Ok(JText(""))
    ensures ValidateField(fieldName, EmailType, JText(""), false, rows, updateOperation, isEmail) == Ok(())
  {
    ContainsItself(EmailType);
    MissingCharNotContained(EmailType, RequiredMarker, 0);
    MissingCharNotContained(EmailType, StringType, 0);
    MissingCharNotContained(EmailType, NumberType, 0);
    MissingCharNotContained(EmailType, BooleanType, 0);
  }

  lemma NumberDefault(fieldName: string, freshUuid: string, rows: seq<Json>, updateOperation: bool, isEmail: string -> bool)
    ensures DefaultValueForField(NumberType, freshUuid) == Ok(JNumber(0))
    ensures ValidateField(fieldName, NumberType, JNumber(0), false, rows, updateOperation, isEmail) == Ok(())
  {
    ContainsItself(NumberType);
    MissingCharNotContained(NumberType, RequiredMarker, 0);
    MissingCharNotContained(NumberType, StringType, 0);
    MissingCharNotContained(NumberType, EmailType, 2);
    MissingCharNotContained(NumberType, BooleanType, 3);
    MissingCharNotContained(NumberType, UuidType, 2);
  }

  lemma BooleanDefault(fieldName: string, freshUuid: string, rows: seq<Json>, updateOperation: bool, isEmail: string -> bool)
    ensures DefaultValueForField(BooleanType, freshUuid) == Ok(JBool(false))
    ensures ValidateField(fieldName, BooleanType, JBool(false), false, rows, updateOperation, isEmail) == Ok(())
  {
    ContainsItself(BooleanType);
    MissingCharNotContained(BooleanType, RequiredMarker, 0);
    MissingCharNotContained(BooleanType, StringType, 0);
    MissingCharNotContained(BooleanType, EmailType, 1);
    MissingCharNotContained(BooleanType, NumberType, 1);
    MissingCharNotContained(BooleanType, UuidType, 0);
  }

  /** A uuid field's default is the fresh UUID, which passes the uuid check whatever its text. */
  lemma UuidDefault(fieldName: string, freshUuid: string, rows: seq<Json>, updateOperation: bool, isEmail: string -> bool)
    ensures DefaultValueForField(UuidType, freshUuid) == Ok(JText(freshUuid))
    ensures ValidateField(fieldName, UuidType, JText(freshUuid), false, rows, updateOperation, isEmail) == Ok(())
  {
    ContainsItself(UuidType);
    MissingCharNotContained(UuidType, RequiredMarker, 0);
    MissingCharNotContained(UuidType, StringType, 0);
    MissingCharNotContained(UuidType, EmailType, 0);
    MissingCharNotContained(UuidType, NumberType, 0);
    MissingCharNotContained(UuidType, BooleanType, 0);
  }

  /**
   * The markers in a type tag: "!" takes the default away even from a type word
   * that has one, "*" leaves it alone, and a tag with no known word has none.
   */
  lemma MarkersAndDefaults(freshUuid: string)
    ensures DefaultValueForField(StringType + RequiredMarker, freshUuid) == Err(InvalidDataType)
    ensures DefaultValueForField(NumberType + UniqueMarker, freshUuid) == Ok(JNumber(0))
    ensures DefaultValueForField("date", freshUuid) == Err(InvalidDataType)
  {
    var required := StringType + RequiredMarker;
    assert StartsWith(required[6..], RequiredMarker);
    var unique := NumberType + UniqueMarker;
    MissingCharNotContained(unique, RequiredMarker, 0);
    MissingCharNotContained(unique, StringType, 0);
    MissingCharNotContained(unique, EmailType, 2);
    assert StartsWith(unique[0..], NumberType);
    MissingCharNotContained("date", RequiredMarker, 0);
    MissingCharNotContained("date", StringType, 0);
    MissingCharNotContained("date", EmailType, 1);
    MissingCharNotContained("date", NumberType, 0);
    MissingCharNotContained("date", BooleanType, 0);
    MissingCharNotContained("date", UuidType, 0);
  }

  // ---------------------------------------------------------------------------
  // Records

  /** The type tag a schema gives a field (the schema has been validated, so it is text). */
  function SchemaType(schema: Json, fieldName: string): string
  {
    match Get(schema, fieldName)
    case Some(t) => AsText(t)
    case None => ""
  }

  /** The rows of a table: the items of its root array. */
  function TableRows(table: Json): seq<Json>
  {
    if table.JArray? then table.items else []
  }

  /**
   * One pass of `validateEntityValue`'s loop: a field the input lacks gets its
   * default; a field it has is validated and kept as given.
   */
  function FieldValue(schema: Json, fieldName: string, nodes: Json, rows: seq<Json>, updateOperation: bool,
                      isEmail: string -> bool, freshUuid: string -> string): Result<Json, Failure>
  {
    var fieldType := SchemaType(schema, fieldName);
    match Get(nodes, fieldName)
    case None => DefaultValueForField(fieldType, freshUuid(fieldName))
    case Some(v) =>
      match ValidateField(fieldName, fieldType, v, Contains(fieldType, UniqueMarker), rows, updateOperation, isEmail)
      case Err(e) => Err(e)
      case Ok(_) => Ok(v)
  }

  /** The record built from the field names `names`, stopping at the first field whose value fails. */
  function Record(names: seq<string>, value: string -> Result<Json, Failure>): Result<seq<(string, Json)>, Failure>
  {
    if names == [] then Ok([])
    else
      var last := names[|names| - 1];
      match Record(names[..|names| - 1], value)
      case Err(e) => Err(e)
      case Ok(fields) =>
        match value(last)
        case Err(e) => Err(e)
        case Ok(v) => Ok(fields + [(last, v)])
  }

  /**
   * A record is built iff every field's value is, and then it holds exactly
   * the given fields in order, each with its value. With `FieldValue` as the
   * values: the schema's fields, the input's value where the input has the
   * field, the type's default where it does not; input fields outside the
   * schema are dropped.
   */
  lemma {:induction false} RecordHasSchemaFields(names: seq<string>, value: string -> Result<Json, Failure>)
    ensures Record(names, value).Ok? <==> forall k :: 0 <= k < |names| ==> value(names[k]).Ok?
    ensures var r := Record(names, value);
            r.Ok? ==> |r.value| == |names| && forall k :: 0 <= k < |names| ==> r.value[k].0 == names[k] && Ok(r.value[k].1) == value(names[k])
    ensures var r := Record(names, value);
            r.Err? ==> exists k :: 0 <= k < |names| && value(names[k]) == Err(r.error)
  {
    if names != [] {
      var init := names[..|names| - 1];
      RecordHasSchemaFields(init, value);
      assert forall k :: 0 <= k < |init| ==> init[k] == names[k];
    }
  }

  /**
   * What `FieldValue` keeps: a field the input has is the input's value and
   * passed its check; a missing field gets its type's default.
   */
  lemma FieldValueCases(schema: Json, fieldName: string, nodes: Json, rows: seq<Json>, updateOperation: bool,
                        isEmail: string -> bool, freshUuid: string -> string)
    ensures var fieldType := SchemaType(schema, fieldName);
            var r := FieldValue(schema, fieldName, nodes, rows, updateOperation, isEmail, freshUuid);
            (Has(nodes, fieldName) ==>
               (r.Ok? <==> ValidateField(fieldName, fieldType, Get(nodes, fieldName).value, Contains(fieldType, UniqueMarker), rows, updateOperation, isEmail).Ok?)
               && (r.Ok? ==> r.value == Get(nodes, fieldName).value))
            && (!Has(nodes, fieldName) ==> r == DefaultValueForField(fieldType, freshUuid(fieldName)))
  {
  }

  /** In a list of fields, a name looks up the value of its first occurrence. */
  lemma {:induction false} LookupFirst(fields: seq<(string, Json)>, k: nat)
    requires k < |fields|
    requires forall j :: 0 <= j < k ==> fields[j].0 != fields[k].0
    ensures Lookup(fields, fields[k].0) == Some(fields[k].1)
  {
    if k > 0 {
      LookupFirst(fields[1..], k - 1);
    }
  }

  /** In a list of fields, a name every one of whose fields holds `x` looks up `x`. */
  lemma {:induction false} LookupUniform(fields: seq<(string, Json)>, key: string, x: Json)
    requires exists k :: 0 <= k < |fields| && fields[k].0 == key
    requires forall k :: 0 <= k < |fields| && fields[k].0 == key ==> fields[k].1 == x
    ensures Lookup(fields, key) == Some(x)
  {
    if fields[0].0 != key {
      var k :| 0 <= k < |fields| && fields[k].0 == key;
      assert fields[1..][k - 1] == fields[k];
      LookupUniform(fields[1..], key, x);
    }
  }

  /** In a built record, a field name looks up the value that name is given. */
  lemma RecordLookup(names: seq<string>, value: string -> Result<Json, Failure>, key: string, x: Json)
    requires Record(names, value).Ok? && key in names && value(key) == Ok(x)
    ensures Lookup(Record(names, value).value, key) == Some(x)
  {
    var record := Record(names, value).value;
    RecordHasSchemaFields(names, value);
    var k :| 0 <= k < |names| && names[k] == key;
    assert record[k].0 == key;
    LookupUniform(record, key, x);
  }

  /** Once a prefix of the fields fails, the whole record fails with that prefix's failure. */
  lemma {:induction false} RecordStopsAtFailure(names: seq<string>, value: string -> Result<Json, Failure>, j: nat)
    requires j <= |names| && Record(names[..j], value).Err?
    ensures Record(names, value) == Record(names[..j], value)
    decreases |names| - j
  {
    if j < |names| {
      assert names[..j + 1][..j] == names[..j];
      RecordStopsAtFailure(names, value, j + 1);
    } else {
      assert names[..j] == names;
    }
  }

  // ---------------------------------------------------------------------------
  // Table operations

  /**
   * The libraries the service calls: Jackson's parser and serialiser, the
   * e-mail validator, and JsonPath's read, set and delete at a path (`select`
   * gives `None` where JsonPath gives `null`).
   */
  datatype Libraries = Libraries(
    parse: string -> Option<Json>,
    serialize: Json -> string,
    isEmail: string -> bool,
    select: (Json, string) -> Option<Json>,
    setAt: (Json, string, Json) -> Json,
    deleteAt: (Json, string) -> Json)

  /** The value `validateEntityValue` gives each schema field of the input `nodes`. */
  function FieldValues(lib: Libraries, schema: Json, nodes: Json, rows: seq<Json>, updateOperation: bool,
                       freshUuid: string -> string): string -> Result<Json, Failure>
  {
    fieldName => FieldValue(schema, fieldName, nodes, rows, updateOperation, lib.isEmail, freshUuid)
  }

  /**
   * `validateEntityValue`: the table's schema must exist, parse and be valid;
   * the input must parse; then the record is built field by field.
   */
  function EntityValue(lib: Libraries, entries: map<(Uuid, string), string>, appId: Uuid, tableName: string,
                       json: string, rows: seq<Json>, updateOperation: bool, freshUuid: string -> string)
    : Result<seq<(string, Json)>, Failure>
  {
    var schemaKey := (appId, tableName + SchemaSuffix);
    if schemaKey !in entries then Err(RecordNotFound)
    else match lib.parse(entries[schemaKey])
      case None => Err(ServerError)
      case Some(schema) =>
        if !SchemaValid(schema) then Err(InvalidFieldValue)
        else match lib.parse(json)
          case None => Err(ServerError)
          case Some(nodes) => Record(FieldNames(schema), FieldValues(lib, schema, nodes, rows, updateOperation, freshUuid))
  }

  /**
   * `addElement`: the validated record and the table with it appended. Every
   * failure of the validation other than a uniqueness violation or an invalid
   * field value, a missing schema included, is reported as an invalid query.
   */
  function AddOutcome(lib: Libraries, entries: map<(Uuid, string), string>, appId: Uuid, tableName: string,
                      json: string, freshUuid: string -> string): (r: Result<(seq<(string, Json)>, Json), Failure>)
    ensures r.Err? ==> r.error in {RecordNotFound, InvalidJsonPathQuery, ResourceAlreadyExists, InvalidFieldValue}
    ensures r == Err(RecordNotFound) <==> (appId, tableName) !in entries
  {
    var key := (appId, tableName);
    if key !in entries then Err(RecordNotFound)
    else match lib.parse(entries[key])
      case None => Err(InvalidJsonPathQuery)
      case Some(table) =>
        match EntityValue(lib, entries, appId, tableName, json, TableRows(table), false, freshUuid)
        case Err(e) => Err(if e == ResourceAlreadyExists || e == InvalidFieldValue then e else InvalidJsonPathQuery)
        case Ok(record) =>
          if table.JArray? then Ok((record, JArray(table.items + [JObject(record)])))
          else Err(InvalidJsonPathQuery)
  }

  /** `removeElement`: the table with what `path` selects deleted. */
  function RemoveOutcome(lib: Libraries, entries: map<(Uuid, string), string>, appId: Uuid, tableName: string,
                         path: string): (r: Result<Json, Failure>)
    ensures r.Err? ==> r.error in {RecordNotFound, InvalidJsonPathQuery}
    ensures r.Ok? ==> (appId, tableName) in entries && lib.parse(entries[(appId, tableName)]).Some?
                      && lib.select(lib.parse(entries[(appId, tableName)]).value, path) !in {None, Some(JArray([]))}
  {
    var key := (appId, tableName);
    if key !in entries then Err(RecordNotFound)
    else match lib.parse(entries[key])
      case None => Err(InvalidJsonPathQuery)
      case Some(table) =>
        match lib.select(table, path)
        case None => Err(RecordNotFound)
        case Some(found) =>
          if found == JArray([]) then Err(RecordNotFound)
          else Ok(lib.deleteAt(table, path))
  }

  /** The check `updateElement` makes on the update's "id" field. */
  function IdCheck(lib: Libraries, entityId: string, json: string): Result<(), Failure>
  {
    match lib.parse(json)
    case None => Err(InvalidFieldValue)
    case Some(nodes) =>
      if !Has(nodes, IdField) then Err(InvalidFieldValue)
      else match TextValue(Get(nodes, IdField).value)
        case None => Err(NullReference)
        case Some(id) => if id != entityId then Err(InvalidFieldValue) else Ok(())
  }

  /**
   * `updateElement`: the update must carry the entity's id, the path must
   * select something, and the validated record (no uniqueness checks) is set
   * at the path.
   */
  function UpdateOutcome(lib: Libraries, entries: map<(Uuid, string), string>, appId: Uuid, tableName: string,
                         entityId: string, json: string, path: string, freshUuid: string -> string)
    : Result<(seq<(string, Json)>, Json), Failure>
  {
    var key := (appId, tableName);
    if key !in entries then Err(RecordNotFound)
    else match lib.parse(entries[key])
      case None => Err(InvalidJsonPathQuery)
      case Some(table) =>
        if IdCheck(lib, entityId, json).Err? then Err(IdCheck(lib, entityId, json).error)
        else match lib.select(table, path)
          case None => Err(RecordNotFound)
          case Some(found) =>
            if found == JArray([]) then Err(RecordNotFound)
            else match EntityValue(lib, entries, appId, tableName, json, TableRows(table), true, freshUuid)
              case Err(e) => Err(e)
              case Ok(record) => Ok((record, lib.setAt(table, path, JObject(record))))
  }

  /** The loop of `validateEntityValue`: each field's value in turn, until one fails. */
  method BuildRecord(names: seq<string>, values: string -> Result<Json, Failure>)
    returns (r: Result<seq<(string, Json)>, Failure>)
    ensures r == Record(names, values)
  {
    var fields: seq<(string, Json)> := [];
    var i := 0;
    while i < |names|
      invariant 0 <= i <= |names|
      invariant Record(names[..i], values) == Ok(fields)
    {
      var v := values(names[i]);
      assert names[..i + 1][..i] == names[..i];
      if v.Err? {
        RecordStopsAtFailure(names, values, i + 1);
        return Err(v.error);
      }
      fields := fields + [(names[i], v.value)];
      i := i + 1;
    }
    assert names[..i] == names;
    r := Ok(fields);
  }

  /**
   * A record is validated iff the schema exists, parses and is valid, the
   * input parses, and every schema field's value passes.
   */
  lemma EntityValueSucceeds(lib: Libraries, entries: map<(Uuid, string), string>, appId: Uuid, tableName: string,
                            json: string, rows: seq<Json>, updateOperation: bool, freshUuid: string -> string)
    ensures var schemaKey := (appId, tableName + SchemaSuffix);
            EntityValue(lib, entries, appId, tableName, json, rows, updateOperation, freshUuid).Ok? <==>
              schemaKey in entries && lib.parse(entries[schemaKey]).Some? && SchemaValid(lib.parse(entries[schemaKey]).value)
              && lib.parse(json).Some?
              && var schema := lib.parse(entries[schemaKey]).value;
                 forall k :: 0 <= k < |schema.fields| ==>
                   FieldValue(schema, schema.fields[k].0, lib.parse(json).value, rows, updateOperation, lib.isEmail, freshUuid).Ok?
  {
    var schemaKey := (appId, tableName + SchemaSuffix);
    if schemaKey in entries && lib.parse(entries[schemaKey]).Some? && lib.parse(json).Some? {
      var schema := lib.parse(entries[schemaKey]).value;
      RecordHasSchemaFields(FieldNames(schema), FieldValues(lib, schema, lib.parse(json).value, rows, updateOperation, freshUuid));
    }
  }

  /**
   * A validated record has exactly the schema's fields in schema order, each
   * with its `FieldValue`: input fields outside the schema are dropped.
   */
  lemma EntityValueShape(lib: Libraries, entries: map<(Uuid, string), string>, appId: Uuid, tableName: string,
                         json: string, rows: seq<Json>, updateOperation: bool, freshUuid: string -> string)
    requires EntityValue(lib, entries, appId, tableName, json, rows, updateOperation, freshUuid).Ok?
    ensures (appId, tableName + SchemaSuffix) in entries && lib.parse(entries[(appId, tableName + SchemaSuffix)]).Some?
    ensures lib.parse(json).Some?
    ensures var r := EntityValue(lib, entries, appId, tableName, json, rows, updateOperation, freshUuid).value;
            var schema := lib.parse(entries[(appId, tableName + SchemaSuffix)]).value;
            SchemaValid(schema) && |r| == |schema.fields|
            && forall k :: 0 <= k < |schema.fields| ==>
                 r[k].0 == schema.fields[k].0
                 && Ok(r[k].1) == FieldValue(schema, schema.fields[k].0, lib.parse(json).value, rows, updateOperation, lib.isEmail, freshUuid)
  {
    var schema := lib.parse(entries[(appId, tableName + SchemaSuffix)]).value;
    RecordHasSchemaFields(FieldNames(schema), FieldValues(lib, schema, lib.parse(json).value, rows, updateOperation, freshUuid));
  }

  /**
   * A record `addElement` stores is appended after the table's existing rows,
   * and every unique ('*') field the caller gave with non-blank text differs
   * from that field in every existing row.
   */
  lemma AddedRecordIsUnique(lib: Libraries, entries: map<(Uuid, string), string>, appId: Uuid, tableName: string,
                            json: string, freshUuid: string -> string)
    requires AddOutcome(lib, entries, appId, tableName, json, freshUuid).Ok?
    ensures (appId, tableName) in entries && lib.parse(entries[(appId, tableName)]).Some?
    ensures var table := lib.parse(entries[(appId, tableName)]).value;
            var (record, newTable) := AddOutcome(lib, entries, appId, tableName, json, freshUuid).value;
            table.JArray? && newTable == JArray(table.items + [JObject(record)])
    ensures var table := lib.parse(entries[(appId, tableName)]).value;
            var schema := lib.parse(entries[(appId, tableName + SchemaSuffix)]).value;
            var nodes := lib.parse(json).value;
            var record := AddOutcome(lib, entries, appId, tableName, json, freshUuid).value.0;
            forall k, row :: 0 <= k < |record| && row in table.items
                             && Contains(SchemaType(schema, record[k].0), UniqueMarker)
                             && Has(nodes, record[k].0) && !IsBlank(AsText(record[k].1))
                             ==> Get(row, record[k].0) != Some(JText(AsText(record[k].1)))
  {
    var table := lib.parse(entries[(appId, tableName)]).value;
    EntityValueShape(lib, entries, appId, tableName, json, TableRows(table), false, freshUuid);
    var schema := lib.parse(entries[(appId, tableName + SchemaSuffix)]).value;
    var nodes := lib.parse(json).value;
    var record := AddOutcome(lib, entries, appId, tableName, json, freshUuid).value.0;
    forall k, row | 0 <= k < |record| && row in table.items
                    && Contains(SchemaType(schema, record[k].0), UniqueMarker)
                    && Has(nodes, record[k].0) && !IsBlank(AsText(record[k].1))
      ensures Get(row, record[k].0) != Some(JText(AsText(record[k].1)))
    {
      var name := record[k].0;
      FieldValueCases(schema, name, nodes, table.items, false, lib.isEmail, freshUuid);
      UniqueFieldCheck(name, SchemaType(schema, name), record[k].1, table.items, lib.isEmail);
    }
  }

  /** A uuid field given as a JSON string passes its check, however the string looks. */
  lemma UuidTextPasses(fieldName: string, text: string, rows: seq<Json>, updateOperation: bool, isEmail: string -> bool)
    ensures ValidateField(fieldName, UuidType, JText(text), false, rows, updateOperation, isEmail) == Ok(())
  {
    MissingCharNotContained(UuidType, StringType, 0);
    MissingCharNotContained(UuidType, NumberType, 0);
    MissingCharNotContained(UuidType, BooleanType, 0);
  }

  /**
   * A record keeps an "id" given as a JSON string: whatever the string, it
   * passes the uuid check and is the record's "id".
   */
  lemma EntityValueKeepsId(lib: Libraries, entries: map<(Uuid, string), string>, appId: Uuid, tableName: string,
                           json: string, rows: seq<Json>, updateOperation: bool, freshUuid: string -> string, id: string)
    requires EntityValue(lib, entries, appId, tableName, json, rows, updateOperation, freshUuid).Ok?
    requires lib.parse(json).Some? && Get(lib.parse(json).value, IdField) == Some(JText(id))
    ensures Lookup(EntityValue(lib, entries, appId, tableName, json, rows, updateOperation, freshUuid).value, IdField) == Some(JText(id))
  {
    EntityValueShape(lib, entries, appId, tableName, json, rows, updateOperation, freshUuid);
    var schema := lib.parse(entries[(appId, tableName + SchemaSuffix)]).value;
    var nodes := lib.parse(json).value;
    assert SchemaType(schema, IdField) == UuidType;
    UuidTextPasses(IdField, id, rows, updateOperation, lib.isEmail);
    MissingCharNotContained(UuidType, UniqueMarker, 0);
    FieldValueCases(schema, IdField, nodes, rows, updateOperation, lib.isEmail, freshUuid);
    var values := FieldValues(lib, schema, nodes, rows, updateOperation, freshUuid);
    assert values(IdField) == Ok(JText(id));
    var k :| 0 <= k < |schema.fields| && schema.fields[k].0 == IdField;
    assert FieldNames(schema)[k] == IdField;
    RecordLookup(FieldNames(schema), values, IdField, JText(id));
  }

  /** An update that succeeds keeps the entity's id: the stored record's "id" is the `entityId` the caller named. */
  lemma UpdatedRecordKeepsId(lib: Libraries, entries: map<(Uuid, string), string>, appId: Uuid, tableName: string,
                             entityId: string, json: string, path: string, freshUuid: string -> string)
    requires UpdateOutcome(lib, entries, appId, tableName, entityId, json, path, freshUuid).Ok?
    ensures Lookup(UpdateOutcome(lib, entries, appId, tableName, entityId, json, path, freshUuid).value.0, IdField) == Some(JText(entityId))
  {
    var rows := TableRows(lib.parse(entries[(appId, tableName)]).value);
    assert IdCheck(lib, entityId, json).Ok?;
    EntityValueKeepsId(lib, entries, appId, tableName, json, rows, true, freshUuid, entityId);
  }

  /** With the uniqueness checks off, no field value is refused as a duplicate. */
  lemma FieldValueOnUpdate(schema: Json, fieldName: string, nodes: Json, rows: seq<Json>, isEmail: string -> bool,
                           freshUuid: string -> string)
    ensures FieldValue(schema, fieldName, nodes, rows, true, isEmail, freshUuid) != Err(ResourceAlreadyExists)
  {
    if Has(nodes, fieldName) {
      UniqueFieldCheck(fieldName, SchemaType(schema, fieldName), Get(nodes, fieldName).value, rows, isEmail);
    }
  }

  /** Validating for an update never reports a uniqueness violation. */
  lemma EntityValueOnUpdate(lib: Libraries, entries: map<(Uuid, string), string>, appId: Uuid, tableName: string,
                            json: string, rows: seq<Json>, freshUuid: string -> string)
    ensures EntityValue(lib, entries, appId, tableName, json, rows, true, freshUuid) != Err(ResourceAlreadyExists)
  {
    var schemaKey := (appId, tableName + SchemaSuffix);
    if schemaKey in entries && lib.parse(entries[schemaKey]).Some? && lib.parse(json).Some? {
      var schema := lib.parse(entries[schemaKey]).value;
      var nodes := lib.parse(json).value;
      var values := FieldValues(lib, schema, nodes, rows, true, freshUuid);
      RecordHasSchemaFields(FieldNames(schema), values);
      var r := Record(FieldNames(schema), values);
      if r.Err? {
        var k :| 0 <= k < |FieldNames(schema)| && values(FieldNames(schema)[k]) == Err(r.error);
        FieldValueOnUpdate(schema, FieldNames(schema)[k], nodes, rows, lib.isEmail, freshUuid);
      }
    }
  }

  /** An update never reports a uniqueness violation: the uniqueness checks only run on insert. */
  lemma UpdateSkipsUniqueness(lib: Libraries, entries: map<(Uuid, string), string>, appId: Uuid, tableName: string,
                              entityId: string, json: string, path: string, freshUuid: string -> string)
    ensures UpdateOutcome(lib, entries, appId, tableName, entityId, json, path, freshUuid) != Err(ResourceAlreadyExists)
  {
    var key := (appId, tableName);
    if key in entries && lib.parse(entries[key]).Some? {
      EntityValueOnUpdate(lib, entries, appId, tableName, json, TableRows(lib.parse(entries[key]).value), freshUuid);
    }
  }

  /** The scratch-storage key/value pairs seen as JSON tables. */
  class JsonDbService {
    /** The key/value pairs, by (application id, key). */
    var entries: map<(Uuid, string), string>
    const lib: Libraries

    constructor (entries: map<(Uuid, string), string>, lib: Libraries)
      ensures this.entries == entries && this.lib == lib
    {
      this.entries := entries;
      this.lib := lib;
    }

    /** `validateEntityValue`, with `rows` the table the uniqueness checks look at. */
    method ValidateEntityValue(appId: Uuid, tableName: string, json: string, rows: seq<Json>, updateOperation: bool,
                               freshUuid: string -> string) returns (r: Result<seq<(string, Json)>, Failure>)
      ensures r == EntityValue(lib, entries, appId, tableName, json, rows, updateOperation, freshUuid)
    {
      var schemaKey := (appId, tableName + SchemaSuffix);
      if schemaKey !in entries {
        return Err(RecordNotFound);
      }
      var schema := lib.parse(entries[schemaKey]);
      if schema.None? {
        return Err(ServerError);
      }
      var valid := ValidateSchema(schema.value);
      if valid.Err? {
        return Err(valid.error);
      }
      var nodes := lib.parse(json);
      if nodes.None? {
        return Err(ServerError);
      }
      r := BuildRecord(FieldNames(schema.value), FieldValues(lib, schema.value, nodes.value, rows, updateOperation, freshUuid));
    }

    /** `addElement`: appends the validated record to the table and stores the table. */
    method AddElement(appId: Uuid, tableName: string, json: string, freshUuid: string -> string)
      returns (r: Result<Json, Failure>)
      modifies this
      ensures var o := AddOutcome(lib, old(entries), appId, tableName, json, freshUuid);
              (o.Err? ==> r == Err(o.error) && entries == old(entries))
              && (o.Ok? ==> r == Ok(JObject(o.value.0)) && entries == old(entries)[(appId, tableName) := lib.serialize(o.value.1)])
    {
      var key := (appId, tableName);
      if key !in entries {
        return Err(RecordNotFound);
      }
      var table := lib.parse(entries[key]);
      if table.None? {
        return Err(InvalidJsonPathQuery);
      }
      var record := ValidateEntityValue(appId, tableName, json, TableRows(table.value), false, freshUuid);
      if record.Err? {
        var e := record.error;
        return Err(if e == ResourceAlreadyExists || e == InvalidFieldValue then e else InvalidJsonPathQuery);
      }
      if !table.value.JArray? {
        return Err(InvalidJsonPathQuery);
      }
      entries := entries[key := lib.serialize(JArray(table.value.items + [JObject(record.value)]))];
      r := Ok(JObject(record.value));
    }

    /** `removeElement`: deletes what `path` selects and stores the table. */
    method RemoveElement(appId: Uuid, tableName: string, path: string) returns (r: Result<(), Failure>)
      modifies this
      ensures var o := RemoveOutcome(lib, old(entries), appId, tableName, path);
              (o.Err? ==> r == Err(o.error) && entries == old(entries))
              && (o.Ok? ==> r == Ok(()) && entries == old(entries)[(appId, tableName) := lib.serialize(o.value)])
    {
      var key := (appId, tableName);
      if key !in entries {
        return Err(RecordNotFound);
      }
      var table := lib.parse(entries[key]);
      if table.None? {
        return Err(InvalidJsonPathQuery);
      }
      var found := lib.select(table.value, path);
      if found.None? || found.value == JArray([]) {
        return Err(RecordNotFound);
      }
      entries := entries[key := lib.serialize(lib.deleteAt(table.value, path))];
      r := Ok(());
    }

    /** `updateElement`: replaces what `path` selects with the validated record and stores the table. */
    method UpdateElement(appId: Uuid, tableName: string, entityId: string, json: string, path: string,
                         freshUuid: string -> string) returns (r: Result<Json, Failure>)
      modifies this
      ensures var o := UpdateOutcome(lib, old(entries), appId, tableName, entityId, json, path, freshUuid);
              (o.Err? ==> r == Err(o.error) && entries == old(entries))
              && (o.Ok? ==> r == Ok(JObject(o.value.0)) && entries == old(entries)[(appId, tableName) := lib.serialize(o.value.1)])
    {
      var key := (appId, tableName);
      if key !in entries {
        return Err(RecordNotFound);
      }
      var table := lib.parse(entries[key]);
      if table.None? {
        return Err(InvalidJsonPathQuery);
      }
      var nodes := lib.parse(json);
      if nodes.None? || !Has(nodes.value, IdField) {
        return Err(InvalidFieldValue);
      }
      var id := TextValue(Get(nodes.value, IdField).value);
      if id.None? {
        return Err(NullReference);
      }
      if id.value != entityId {
        return Err(InvalidFieldValue);
      }
      var found := lib.select(table.value, path);
      if found.None? || found.value == JArray([]) {
        return Err(RecordNotFound);
      }
      var record := ValidateEntityValue(appId, tableName, json, TableRows(table.value), true, freshUuid);
      if record.Err? {
        return Err(record.error);
      }
      entries := entries[key := lib.serialize(lib.setAt(table.value, path, JObject(record.value)))];
      r := Ok(JObject(record.value));
    }
  }
}
