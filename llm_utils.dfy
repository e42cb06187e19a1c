/** The schema translators and the fence stripper of `llm_service/llmUtils.py`.

    Python reads a msgspec Struct's fields by reflection (`get_type_hints`
    with `Annotated` and `Literal`); here the translators receive that
    information as an explicit list of field descriptors, in the order
    `get_type_hints` yields them. */
module LlmUtils {
  import opened Wrappers
  import opened Dicts
  import opened JsonValues
  import opened Strings

  /** The base type of a field, after `Annotated[...]` is peeled off.
      `spelled` is what Python's `str()` prints for the type; only the older
      translator's fallback shows it. */
  datatype Kind =
    | Str                                  // str
    | Int                                  // int
    | Float                                // float
    | Bool                                 // bool
    | Literal(choices: seq<string>)        // Literal["a", "b", ...]
    | ListOf(item: Kind, spelled: string)  // List[item] or list[item]
    | Other(spelled: string)               // anything else, bare `list` included

  /** One field: its name, its base type and the first `Annotated` metadata
      item, with "" standing for a field that has none. */
  datatype Field = Field(name: string, kind: Kind, description: string)

  function Names(fields: seq<Field>): (ns: seq<string>)
    ensures |ns| == |fields|
    ensures forall i :: 0 <= i < |fields| ==> ns[i] == fields[i].name
  {
    seq(|fields|, i requires 0 <= i < |fields| => fields[i].name)
  }

  /** Field names are the keys of the dict `get_type_hints` returns, so they
      never repeat. */
  predicate DistinctNames(fields: seq<Field>) {
    Distinct(Names(fields))
  }

  // ---------------------------------------------------------------------
  // Building a dict with one assignment per field, as both loops do.
  // ---------------------------------------------------------------------

  /** The dict after `d[field.name] = value(field)` for every field in order. */
  function Entries<V>(fields: seq<Field>, value: Field -> V): (d: Dict<V>)
    ensures |d| == |fields|
    ensures forall i :: 0 <= i < |fields| ==> d[i] == (fields[i].name, value(fields[i]))
  {
    if fields == [] then []
    else
      var n := |fields| - 1;
      var init := Entries(fields[..n], value);
      assert forall i :: 0 <= i < n ==> fields[..n][i] == fields[i];
      init + [(fields[n].name, value(fields[n]))]
  }

  /** The dict after assigning, for every field in order, the value that
      `value` gives it, skipping the fields for which it gives None. */
  function OptionalEntries<V>(fields: seq<Field>, value: Field -> Option<V>): Dict<V>
  {
    if fields == [] then []
    else
      var n := |fields| - 1;
      var init := OptionalEntries(fields[..n], value);
      match value(fields[n])
      case Some(v) => init + [(fields[n].name, v)]
      case None => init
  }

  lemma EntriesKeys<V>(fields: seq<Field>, value: Field -> V)
    ensures Keys(Entries(fields, value)) == Names(fields)
  {
  }

  /** Every field's name maps to that field's value, and nothing else is a key. */
  lemma EntriesLookup<V>(fields: seq<Field>, value: Field -> V, i: nat)
    requires DistinctNames(fields) && i < |fields|
    ensures Lookup(Entries(fields, value), fields[i].name) == Some(value(fields[i]))
  {
    EntriesKeys(fields, value);
    LookupDistinct(Entries(fields, value), i);
  }

  /** One more loop iteration adds the next field's pair at the end. */
  lemma EntriesSnoc<V>(fields: seq<Field>, value: Field -> V, i: nat)
    requires i < |fields|
    ensures Entries(fields[..i + 1], value) == Entries(fields[..i], value) + [(fields[i].name, value(fields[i]))]
  {
    assert fields[..i + 1][..i] == fields[..i];
  }

  lemma OptionalEntriesSnoc<V>(fields: seq<Field>, value: Field -> Option<V>, i: nat)
    requires i < |fields|
    ensures OptionalEntries(fields[..i + 1], value) ==
      OptionalEntries(fields[..i], value) + match value(fields[i]) {
        case Some(v) => [(fields[i].name, v)]
        case None => []
      }
  {
    assert fields[..i + 1][..i] == fields[..i];
  }

  lemma {:induction false} OptionalEntriesAbsent<V>(fields: seq<Field>, value: Field -> Option<V>, k: string)
    requires k !in Names(fields)
    ensures Lookup(OptionalEntries(fields, value), k) == None
  {
    if fields != [] {
      var n := |fields| - 1;
      assert Names(fields[..n]) == Names(fields)[..n];
      OptionalEntriesAbsent(fields[..n], value, k);
    }
  }

  /** A field's name maps to its value exactly when `value` gives it one. */
  lemma {:induction false} OptionalEntriesLookup<V>(fields: seq<Field>, value: Field -> Option<V>, i: nat)
    requires DistinctNames(fields) && i < |fields|
    ensures Lookup(OptionalEntries(fields, value), fields[i].name) == value(fields[i])
  {
    var n := |fields| - 1;
    var init := fields[..n];
    assert Names(init) == Names(fields)[..n];
    if i == n {
      if value(fields[n]).None? {
        assert fields[n].name !in Names(init);
        OptionalEntriesAbsent(init, value, fields[n].name);
      }
    } else {
      assert init[i] == fields[i];
      assert fields[i].name != fields[n].name by {
        assert Names(fields)[i] != Names(fields)[n];
      }
      OptionalEntriesLookup(init, value, i);
    }
  }

  // ---------------------------------------------------------------------
  // struct_to_openai_tool_schema
  // ---------------------------------------------------------------------

  function StringType(): Dict<Json> {
    [("type", JString("string"))]
  }

  function EnumOf(choices: seq<string>): Dict<Json> {
    [("type", JString("string")), ("enum", JArray(JStrings(choices)))]
  }

  /** The JSON Schema members of a field's base type. */
  function TypeSchema(k: Kind): Dict<Json> {
    match k
    case Literal(c) => EnumOf(c)
    case ListOf(item, _) => [("type", JString("array")), ("items", JObject(ItemsSchema(item)))]
    case Str => StringType()
    case Int => [("type", JString("integer"))]
    case Float => [("type", JString("number"))]
    case Bool => [("type", JString("boolean"))]
    case Other(_) => StringType()
  }

  /** The property schema of one field: its type's members, then its
      description when it has a non-empty one. */
  function FieldSchema(f: Field): (r: Json)
    ensures r.JObject? && r.members != [] && r.members[0].0 == "type"
  {
    JObject(TypeSchema(f.kind) + if f.description != "" then [("description", JString(f.description))] else [])
  }

  function ToolName(className: string): string {
    Lower(className)
  }

  /** `inspect.getdoc(cls) or f"Extract structured {fn_name} data from document text."` */
  function ToolDescription(toolName: string, doc: Option<string>): (d: string)
    ensures doc.Some? && doc.value != "" ==> d == doc.value
    ensures doc.None? || doc.value == "" ==> d == "Extract structured " + toolName + " data from document text."
  {
    match doc
    case Some(text) => if text != "" then text else "Extract structured " + toolName + " data from document text."
    case None => "Extract structured " + toolName + " data from document text."
  }

  /** The dict the translator returns, around its computed parts. */
  function ToolObject(name: string, description: string, properties: Dict<Json>, required: seq<Json>): Json {
    JObject([
      ("type", JString("function")),
      ("function", JObject([
        ("name", JString(name)),
        ("description", JString(description)),
        ("parameters", JObject([
          ("type", JString("object")),
          ("properties", JObject(properties)),
          ("required", JArray(required))]))]))])
  }

  /** The tool the translator builds for a class: `className` is `cls.__name__`
      and `doc` what `inspect.getdoc(cls)` returns. */
  function ToolSchema(fields: seq<Field>, className: string, doc: Option<string>): (r: Json)
    ensures r.JObject? && Keys(r.members) == ["type", "function"]
  {
    var name := ToolName(className);
    ToolObject(name, ToolDescription(name, doc), Entries(fields, FieldSchema), JStrings(Names(fields)))
  }

  /** The body of the translator's loop for one field: the type's members,
      then the description when there is one. */
  method BuildFieldSchema(field: Field) returns (schema: Dict<Json>)
    ensures JObject(schema) == FieldSchema(field)
  {
    match field.kind {
      case Literal(c) =>
        schema := [("type", JString("string")), ("enum", JArray(JStrings(c)))];
      case ListOf(item, _) =>
        if item.Literal? {
          schema := [("type", JString("array")),
                     ("items", JObject([("type", JString("string")), ("enum", JArray(JStrings(item.choices)))]))];
        } else {
          schema := [("type", JString("array")), ("items", JObject([("type", JString("string"))]))];
        }
      case Str => schema := [("type", JString("string"))];
      case Int => schema := [("type", JString("integer"))];
      case Float => schema := [("type", JString("number"))];
      case Bool => schema := [("type", JString("boolean"))];
      case Other(_) => schema := [("type", JString("string"))];
    }
    assert schema == TypeSchema(field.kind);
    if field.description != "" {
      schema := schema + [("description", JString(field.description))];
    }
  }

  /** `struct_to_openai_tool_schema`: one loop over the fields filling
      `properties` and appending to `required`. */
  method StructToOpenAIToolSchema(fields: seq<Field>, className: string, doc: Option<string>)
    returns (tool: Json)
    ensures tool == ToolSchema(fields, className, doc)
  {
    var properties: Dict<Json> := [];
    var required: seq<string> := [];
    var i := 0;
    while i < |fields|
      invariant 0 <= i <= |fields|
      invariant properties == Entries(fields[..i], FieldSchema)
      invariant required == Names(fields[..i])
    {
      var field := fields[i];
      var fieldSchema := BuildFieldSchema(field);
      EntriesSnoc(fields, FieldSchema, i);
      assert Names(fields[..i + 1]) == Names(fields[..i]) + [field.name];
      properties := properties + [(field.name, JObject(fieldSchema))];
      required := required + [field.name];
      i := i + 1;
    }
    assert fields[..i] == fields;
    var fnName := Lower(className);
    var description := if doc.Some? && doc.value != "" then doc.value
                       else "Extract structured " + fnName + " data from document text.";
    tool := ToolObject(fnName, description, properties, JStrings(required));
  }

  /** Where the parts of the returned dict are found. */
  lemma ToolObjectPaths(name: string, description: string, properties: Dict<Json>, required: seq<Json>)
    ensures var tool := ToolObject(name, description, properties, required);
      && At(tool, ["type"]) == Some(JString("function"))
      && At(tool, ["function", "name"]) == Some(JString(name))
      && At(tool, ["function", "description"]) == Some(JString(description))
      && At(tool, ["function", "parameters", "type"]) == Some(JString("object"))
      && At(tool, ["function", "parameters", "required"]) == Some(JArray(required))
      && At(tool, ["function", "parameters", "properties"]) == Some(JObject(properties))
  {
    var tool := ToolObject(name, description, properties, required);
    var fn := tool.members[1].1;
    var params := fn.members[2].1;
    LookupDistinct(tool.members, 0);
    LookupDistinct(tool.members, 1);
    ParametersPaths(properties, required);
    FunctionPaths(name, description, params);
  }

  lemma FunctionPaths(name: string, description: string, params: Json)
    ensures var fn := JObject([("name", JString(name)), ("description", JString(description)), ("parameters", params)]);
      && At(fn, ["name"]) == Some(JString(name))
      && At(fn, ["description"]) == Some(JString(description))
      && (forall k :: At(fn, ["parameters", k]) == At(params, [k]))
  {
    var fn := JObject([("name", JString(name)), ("description", JString(description)), ("parameters", params)]);
    LookupDistinct(fn.members, 0);
    LookupDistinct(fn.members, 1);
    LookupDistinct(fn.members, 2);
    forall k ensures At(fn, ["parameters", k]) == At(params, [k]) {
      assert ["parameters", k][1..] == [k];
    }
  }

  lemma ParametersPaths(properties: Dict<Json>, required: seq<Json>)
    ensures var params := JObject([("type", JString("object")), ("properties", JObject(properties)), ("required", JArray(required))]);
      && At(params, ["type"]) == Some(JString("object"))
      && At(params, ["properties"]) == Some(JObject(properties))
      && At(params, ["required"]) == Some(JArray(required))
  {
    var params := JObject([("type", JString("object")), ("properties", JObject(properties)), ("required", JArray(required))]);
    LookupDistinct(params.members, 0);
    LookupDistinct(params.members, 1);
    LookupDistinct(params.members, 2);
  }

  /** What the translated tool says: its name and description, and an
      object of parameters whose `required` lists every field name in
      declaration order and whose `properties` are one entry per field. */
  lemma ToolSchemaShape(fields: seq<Field>, className: string, doc: Option<string>)
    ensures var tool := ToolSchema(fields, className, doc);
      && At(tool, ["type"]) == Some(JString("function"))
      && At(tool, ["function", "name"]) == Some(JString(Lower(className)))
      && At(tool, ["function", "description"]) == Some(JString(ToolDescription(Lower(className), doc)))
      && At(tool, ["function", "parameters", "type"]) == Some(JString("object"))
      && At(tool, ["function", "parameters", "required"]) == Some(JArray(JStrings(Names(fields))))
      && At(tool, ["function", "parameters", "properties"]) == Some(JObject(Entries(fields, FieldSchema)))
  {
    var name := Lower(className);
    ToolObjectPaths(name, ToolDescription(name, doc), Entries(fields, FieldSchema), JStrings(Names(fields)));
  }

  /** The nested objects of the tool have exactly the keys the source
      writes, in its order. */
  lemma ToolSchemaKeys(fields: seq<Field>, className: string, doc: Option<string>)
    ensures var tool := ToolSchema(fields, className, doc);
      && At(tool, ["function"]).Some? && At(tool, ["function"]).value.JObject?
      && Keys(At(tool, ["function"]).value.members) == ["name", "description", "parameters"]
      && At(tool, ["function", "parameters"]).Some? && At(tool, ["function", "parameters"]).value.JObject?
      && Keys(At(tool, ["function", "parameters"]).value.members) == ["type", "properties", "required"]
  {
    var tool := ToolSchema(fields, className, doc);
    var fn := tool.members[1].1;
    LookupDistinct(tool.members, 1);
    LookupDistinct(fn.members, 2);
    AtOne(tool, "function");
    AtTwo(tool, "function", "parameters");
  }

  /** `required` names every field exactly once, in declaration order, and
      `properties` has exactly one entry per field, holding its schema. */
  lemma PropertiesMatchFields(fields: seq<Field>)
    requires DistinctNames(fields)
    ensures Distinct(Names(fields))
    ensures Keys(Entries(fields, FieldSchema)) == Names(fields)
    ensures forall i :: 0 <= i < |fields| ==>
      Lookup(Entries(fields, FieldSchema), fields[i].name) == Some(FieldSchema(fields[i]))
  {
    EntriesKeys(fields, FieldSchema);
    LookupDistinctAll(Entries(fields, FieldSchema));
  }

  /** The keys of a base type's members, in order. */
  function TypeKeys(k: Kind): seq<string> {
    match k
    case Literal(_) => ["type", "enum"]
    case ListOf(_, _) => ["type", "items"]
    case _ => ["type"]
  }

  /** The keys of a property schema, in order. */
  function SchemaKeys(f: Field): seq<string> {
    TypeKeys(f.kind) + if f.description != "" then ["description"] else []
  }

  lemma TypeSchemaKeys(k: Kind)
    ensures Keys(TypeSchema(k)) == TypeKeys(k)
    ensures Distinct(TypeKeys(k)) && "description" !in TypeKeys(k)
  {
  }

  lemma FieldSchemaKeys(f: Field)
    ensures Keys(FieldSchema(f).members) == SchemaKeys(f)
    ensures Distinct(SchemaKeys(f))
  {
    var d: Dict<Json> := if f.description != "" then [("description", JString(f.description))] else [];
    KeysAppend(TypeSchema(f.kind), d);
    TypeSchemaKeys(f.kind);
    assert Keys(d) == if f.description != "" then ["description"] else [];
  }

  /** Every key but `description` is looked up in the type's members. */
  lemma TypeMember(f: Field, k: string)
    requires k != "description"
    ensures Get(FieldSchema(f), k) == Lookup(TypeSchema(f.kind), k)
  {
    var d: Dict<Json> := if f.description != "" then [("description", JString(f.description))] else [];
    assert Keys(d) == if f.description != "" then ["description"] else [];
    LookupAppend(TypeSchema(f.kind), d, k);
  }

  /** Each JSON type comes from exactly the kinds listed. */
  lemma FieldSchemaType(f: Field)
    ensures var t := At(FieldSchema(f), ["type"]);
      && (t == Some(JString("array")) <==> f.kind.ListOf?)
      && (t == Some(JString("integer")) <==> f.kind.Int?)
      && (t == Some(JString("number")) <==> f.kind.Float?)
      && (t == Some(JString("boolean")) <==> f.kind.Bool?)
      && (t == Some(JString("string")) <==> f.kind.Str? || f.kind.Literal? || f.kind.Other?)
  {
    TypeMember(f, "type");
    assert Lookup(TypeSchema(f.kind), "type") == Some(TypeSchema(f.kind)[0].1);
  }

  /** An `enum` appears exactly for a Literal and keeps its choices in order. */
  lemma FieldSchemaEnum(f: Field)
    ensures At(FieldSchema(f), ["enum"]) ==
      (if f.kind.Literal? then Some(JArray(JStrings(f.kind.choices))) else None)
  {
    TypeMember(f, "enum");
  }

  /** The members of a list's `items`. */
  function ItemsSchema(item: Kind): Dict<Json> {
    if item.Literal? then EnumOf(item.choices) else StringType()
  }

  lemma ItemsLookup(item: Kind)
    ensures Keys(ItemsSchema(item)) == if item.Literal? then ["type", "enum"] else ["type"]
    ensures Lookup(ItemsSchema(item), "type") == Some(JString("string"))
    ensures Lookup(ItemsSchema(item), "enum") ==
      (if item.Literal? then Some(JArray(JStrings(item.choices))) else None)
  {
  }

  /** `items` appears exactly for a list, and describes a string or a
      Literal's choices. */
  lemma FieldSchemaItems(f: Field)
    ensures At(FieldSchema(f), ["items"]).Some? <==> f.kind.ListOf?
    ensures f.kind.ListOf? ==> var items := At(FieldSchema(f), ["items"]).value;
      items.JObject? && Keys(items.members) == if f.kind.item.Literal? then ["type", "enum"] else ["type"]
    ensures f.kind.ListOf? ==> At(FieldSchema(f), ["items", "type"]) == Some(JString("string"))
    ensures At(FieldSchema(f), ["items", "enum"]) ==
      (if f.kind.ListOf? && f.kind.item.Literal? then Some(JArray(JStrings(f.kind.item.choices))) else None)
  {
    TypeMember(f, "items");
    TypeItems(f.kind);
    AtOne(FieldSchema(f), "items");
    AtTwo(FieldSchema(f), "items", "type");
    AtTwo(FieldSchema(f), "items", "enum");
    if f.kind.ListOf? {
      ItemsLookup(f.kind.item);
    }
  }

  lemma TypeItems(k: Kind)
    ensures Lookup(TypeSchema(k), "items") == if k.ListOf? then Some(JObject(ItemsSchema(k.item))) else None
  {
    if k.ListOf? {
      assert Lookup(TypeSchema(k), "items") == Some(JObject(ItemsSchema(k.item)));
    }
  }

  /** `description` appears exactly when the field has a non-empty one, verbatim. */
  lemma FieldSchemaDescription(f: Field)
    ensures At(FieldSchema(f), ["description"]) ==
      (if f.description != "" then Some(JString(f.description)) else None)
  {
    FieldSchemaKeys(f);
  }

  // ---------------------------------------------------------------------
  // struct_to_llm_schema
  // ---------------------------------------------------------------------

  /** A value of the older translator's `schema` dict: a type name, or the
      list of a Literal's choices. */
  datatype SchemaType = TypeName(name: string) | Choices(choices: seq<string>)

  function LegacyType(k: Kind): (r: SchemaType)
    ensures r.Choices? <==> k.Literal? || (k.ListOf? && k.item.Literal?)
  {
    match k
    case Literal(c) => Choices(c)
    case ListOf(item, spelled) => if item.Literal? then Choices(item.choices) else TypeName(spelled)
    case Str => TypeName("string")
    case Int => TypeName("integer")
    case Float => TypeName("float")
    case Bool => TypeName("boolean")
    case Other(spelled) => TypeName(spelled)
  }

  function FieldType(f: Field): SchemaType {
    LegacyType(f.kind)
  }

  /** The names the older translator writes: fixed ones for the four
      builtin types, the type's own spelling (`str(base_type)`) for any
      other type and for a list of a non-Literal, and the choices of a
      Literal, at the top level or as a list's item. */
  lemma LegacyTypeNames(k: Kind)
    ensures k.Str? ==> LegacyType(k) == TypeName("string")
    ensures k.Int? ==> LegacyType(k) == TypeName("integer")
    ensures k.Float? ==> LegacyType(k) == TypeName("float")
    ensures k.Bool? ==> LegacyType(k) == TypeName("boolean")
    ensures k.Other? || (k.ListOf? && !k.item.Literal?) ==> LegacyType(k) == TypeName(k.spelled)
    ensures LegacyType(k).Choices? ==> LegacyType(k).choices == (if k.Literal? then k.choices else k.item.choices)
  {
  }

  /** The one builtin type the translators name differently: a float field
      is "float" to the older translator and "number" in the tool. */
  lemma TranslatorsDifferOnFloat(f: Field)
    requires f.kind.Float?
    ensures FieldType(f) == TypeName("float")
    ensures At(FieldSchema(f), ["type"]) == Some(JString("number"))
  {
    FieldSchemaType(f);
  }

  function ChoiceHint(choices: seq<string>): string {
    "Choose one or more from: " + Join(choices, ", ") + "."
  }

  /** The f-string the loop writes for a described field with choices. */
  lemma HintAfterDescription(description: string, choices: seq<string>)
    ensures description + " Choose one or more from: " + Join(choices, ", ") + "."
         == description + " " + ChoiceHint(choices)
  {
    var j := Join(choices, ", ");
    calc {
      description + " Choose one or more from: " + j + ".";
      description + (" " + "Choose one or more from: ") + j + ".";
      description + " " + ("Choose one or more from: " + j + ".");
    }
  }

  /** The `notes` entry of a field, None when it gets no entry. */
  function Note(f: Field): (r: Option<string>)
    ensures r.Some? <==> f.description != "" || LegacyType(f.kind).Choices?
  {
    var t := LegacyType(f.kind);
    if f.description != "" then
      Some(if t.Choices? then f.description + " " + ChoiceHint(t.choices) else f.description)
    else if t.Choices? then Some(ChoiceHint(t.choices))
    else None
  }

  /** `struct_to_llm_schema`: one loop over the fields filling `schema` and
      `notes`. */
  method StructToLlmSchema(fields: seq<Field>) returns (schema: Dict<SchemaType>, notes: Dict<string>)
    ensures schema == Entries(fields, FieldType)
    ensures notes == OptionalEntries(fields, Note)
  {
    schema, notes := [], [];
    var i := 0;
    while i < |fields|
      invariant 0 <= i <= |fields|
      invariant schema == Entries(fields[..i], FieldType)
      invariant notes == OptionalEntries(fields[..i], Note)
    {
      var field := fields[i];
      var fieldType: SchemaType;
      match field.kind {
        case Literal(c) => fieldType := Choices(c);
        case ListOf(item, spelled) =>
          if item.Literal? { fieldType := Choices(item.choices); } else { fieldType := TypeName(spelled); }
        case Str => fieldType := TypeName("string");
        case Int => fieldType := TypeName("integer");
        case Float => fieldType := TypeName("float");
        case Bool => fieldType := TypeName("boolean");
        case Other(spelled) => fieldType := TypeName(spelled);
      }
      assert fieldType == FieldType(field);
      EntriesSnoc(fields, FieldType, i);
      OptionalEntriesSnoc(fields, Note, i);
      schema := schema + [(field.name, fieldType)];
      if field.description != "" {
        if fieldType.Choices? {
          HintAfterDescription(field.description, fieldType.choices);
          notes := notes + [(field.name, field.description + " Choose one or more from: " + Join(fieldType.choices, ", ") + ".")];
        } else {
          notes := notes + [(field.name, field.description)];
        }
      } else if fieldType.Choices? {
        notes := notes + [(field.name, "Choose one or more from: " + Join(fieldType.choices, ", ") + ".")];
      }
      i := i + 1;
    }
    assert fields[..i] == fields;
  }

  /** Every field gets a `schema` entry under its own name, and only the
      fields with a description or with choices get a `notes` entry. */
  lemma LegacySchemaLookup(fields: seq<Field>, i: nat)
    requires DistinctNames(fields) && i < |fields|
    ensures Keys(Entries(fields, FieldType)) == Names(fields)
    ensures Lookup(Entries(fields, FieldType), fields[i].name) == Some(LegacyType(fields[i].kind))
    ensures Lookup(OptionalEntries(fields, Note), fields[i].name).Some?
            <==> fields[i].description != "" || LegacyType(fields[i].kind).Choices?
    ensures Lookup(OptionalEntries(fields, Note), fields[i].name) == Note(fields[i])
  {
    EntriesKeys(fields, FieldType);
    EntriesLookup(fields, FieldType, i);
    OptionalEntriesLookup(fields, Note, i);
  }

  /** A field gets a note exactly when it has a description or choices; the
      note starts with the description and ends with the hint listing the
      choices, and when it has both they are separated by one space. */
  lemma NoteRules(f: Field)
    ensures var t := LegacyType(f.kind);
      && (Note(f).Some? <==> f.description != "" || t.Choices?)
      && (Note(f).Some? && f.description != "" ==> StartsWith(Note(f).value, f.description))
      && (Note(f).Some? && t.Choices? ==> EndsWith(Note(f).value, ChoiceHint(t.choices)))
      && (Note(f).Some? && !t.Choices? ==> Note(f).value == f.description)
      && (Note(f).Some? && f.description == "" ==> Note(f).value == ChoiceHint(t.choices))
      && (f.description != "" && t.Choices? ==>
            |Note(f).value| == |f.description| + 1 + |ChoiceHint(t.choices)| && Note(f).value[|f.description|] == ' ')
  {
    var t := LegacyType(f.kind);
    if f.description != "" && t.Choices? {
      var n := Note(f).value;
      var prefix := f.description + " ";
      assert n == prefix + ChoiceHint(t.choices);
      assert n[..|f.description|] == f.description;
      assert n[|n| - |ChoiceHint(t.choices)|..] == ChoiceHint(t.choices);
    }
  }

  /** The two translators agree on which fields have choices and on the
      choices themselves, at the top level for a Literal and under `items`
      for a list of a Literal. */
  lemma TranslatorsAgreeOnChoices(f: Field, c: seq<string>)
    ensures LegacyType(f.kind) == Choices(c) <==>
      (At(FieldSchema(f), ["enum"]) == Some(JArray(JStrings(c))) ||
       At(FieldSchema(f), ["items", "enum"]) == Some(JArray(JStrings(c))))
  {
    FieldSchemaEnum(f);
    FieldSchemaItems(f);
    if At(FieldSchema(f), ["enum"]) == Some(JArray(JStrings(c))) {
      JStringsInjective(f.kind.choices, c);
    }
    if At(FieldSchema(f), ["items", "enum"]) == Some(JArray(JStrings(c))) {
      JStringsInjective(f.kind.item.choices, c);
    }
  }

  // ---------------------------------------------------------------------
  // strip_json_markers
  // ---------------------------------------------------------------------

  const Fence: string := "```"
  const JsonTag: string := "json\n"

  /** How the pattern `^\s*```(?:json\n)?(.*?)\s*```\s*$` (with DOTALL) cuts
      a string: leading space, opening fence, the optional tag, group 1, the
      space before the closing fence, the closing fence, trailing space. */
  datatype FenceMatch = FenceMatch(lead: string, tagged: bool, group: string, gap: string, trail: string)

  function Assembled(m: FenceMatch): string {
    m.lead + Fence + (if m.tagged then JsonTag else "") + m.group + m.gap + Fence + m.trail
  }

  /** The part of the pattern after the optional tag, `(.*?)\s*```\s*$`, on
      what follows the opening fence: the closing fence is the last three
      non-space characters, and the lazy group stops at the whitespace
      before it. */
  function CloseFence(body: string): (r: Option<(string, string, string)>)
    ensures r.None? <==> !EndsWith(RStrip(body), Fence)
    ensures r.Some? ==> var (group, gap, trail) := r.value;
      && body == group + gap + Fence + trail
      && AllSpace(gap) && AllSpace(trail)
      && (group != [] ==> !IsSpace(group[|group| - 1]))
  {
    var u := RStrip(body);
    if !EndsWith(u, Fence) then None
    else
      var trail := body[|u|..];
      var v := u[..|u| - 3];
      var gap := v[|RStrip(v)|..];
      assert AllSpace(trail) by {
        forall i | 0 <= i < |trail| ensures IsSpace(trail[i]) { assert trail[i] == body[|u| + i]; }
      }
      assert AllSpace(gap) by {
        forall i | 0 <= i < |gap| ensures IsSpace(gap[i]) { assert gap[i] == v[|RStrip(v)| + i]; }
      }
      assert body == RStrip(v) + gap + Fence + trail by {
        assert u == v + Fence;
        assert v == RStrip(v) + gap;
      }
      Some((RStrip(v), gap, trail))
  }

  /** `re.search` of the pattern: the leading space is taken whole, the tagged
      alternative is tried before the untagged one. */
  function MatchFence(data: string): (r: Option<FenceMatch>)
    ensures r.Some? ==> StartsWith(LStrip(data), Fence)
  {
    var rest := LStrip(data);
    if !StartsWith(rest, Fence) then None
    else
      var lead := data[..LeadCount(data)];
      var body := rest[3..];
      if StartsWith(body, JsonTag) && CloseFence(body[5..]).Some? then
        var (group, gap, trail) := CloseFence(body[5..]).value;
        Some(FenceMatch(lead, true, group, gap, trail))
      else match CloseFence(body)
        case Some((group, gap, trail)) => Some(FenceMatch(lead, false, group, gap, trail))
        case None => None
  }

  lemma PrefixSplit(s: string, prefix: string)
    requires StartsWith(s, prefix)
    ensures s == prefix + s[|prefix|..]
  {
    assert s == s[..|prefix|] + s[|prefix|..];
  }

  /** A match cuts the whole input, each space part being all whitespace. */
  lemma MatchFenceAssembles(data: string)
    ensures MatchFence(data).Some? ==> var m := MatchFence(data).value;
      Assembled(m) == data && AllSpace(m.lead) && AllSpace(m.gap) && AllSpace(m.trail)
  {
    var rest := LStrip(data);
    if StartsWith(rest, Fence) {
      var lead := data[..LeadCount(data)];
      var body := rest[3..];
      assert data == lead + rest by {
        assert data == data[..LeadCount(data)] + data[LeadCount(data)..];
      }
      PrefixSplit(rest, Fence);
      if StartsWith(body, JsonTag) && CloseFence(body[5..]).Some? {
        var (group, gap, trail) := CloseFence(body[5..]).value;
        PrefixSplit(body, JsonTag);
        AssembledOf(data, lead, rest, body, body[5..], FenceMatch(lead, true, group, gap, trail));
      } else if CloseFence(body).Some? {
        var (group, gap, trail) := CloseFence(body).value;
        AssembledOf(data, lead, rest, body, body, FenceMatch(lead, false, group, gap, trail));
      }
    }
  }

  lemma AssembledOf(data: string, lead: string, rest: string, body: string, tail: string, m: FenceMatch)
    requires data == lead + rest && rest == Fence + body
    requires body == (if m.tagged then JsonTag else "") + tail
    requires tail == m.group + m.gap + Fence + m.trail && lead == m.lead
    ensures Assembled(m) == data
  {
  }

  /** `strip_json_markers` on a string: group 1, stripped, when the pattern
      matches; the input itself otherwise. */
  function StripJsonMarkers(data: string): (r: string)
    ensures |r| <= |data|
    ensures r != data ==> MatchFence(data).Some?
  {
    match MatchFence(data)
    case Some(m) =>
      MatchFenceAssembles(data);
      StripShape(m.group);
      Strip(m.group)
    case None => data
  }

  /** The closing part of the pattern finds the fence that ends the text. */
  lemma CloseFenceOf(inner: string, trail: string)
    requires AllSpace(trail)
    ensures CloseFence(inner + Fence + trail) == Some((RStrip(inner), inner[|RStrip(inner)|..], trail))
  {
    var body := inner + Fence + trail;
    TrailCountPadded(inner + Fence, trail);
    assert TrailCount(inner + Fence) == 0;
    assert body == (inner + Fence) + trail;
    assert RStrip(body) == inner + Fence;
    assert RStrip(body)[..|RStrip(body)| - 3] == inner;
  }

  /** The opening part of the pattern: space, then the fence. */
  lemma OpenFenceOf(lead: string, rest: string)
    requires AllSpace(lead) && StartsWith(rest, Fence)
    ensures LeadCount(lead + rest) == |lead|
    ensures LStrip(lead + rest) == rest
  {
    LeadCountPadded(lead, rest);
    assert rest[0] == '`';
  }

  /** Untagged content followed by a fence does not start with the tag. */
  lemma UntaggedBody(inner: string, trail: string)
    requires !StartsWith(inner, JsonTag)
    ensures !StartsWith(inner + Fence + trail, JsonTag)
  {
    var body := inner + Fence + trail;
    if |inner| >= 5 {
      assert body[..5] == inner[..5];
    } else if |body| >= 5 {
      assert body[|inner|] == '`';
      assert JsonTag[|inner|] != '`';
    }
  }

  /** What the pattern sees once the leading space and the opening fence
      are gone. */
  lemma MatchFenceBody(data: string, lead: string, body: string)
    requires AllSpace(lead) && data == lead + Fence + body
    ensures MatchFence(data) ==
      if StartsWith(body, JsonTag) && CloseFence(body[5..]).Some? then
        var (group, gap, trail) := CloseFence(body[5..]).value;
        Some(FenceMatch(lead, true, group, gap, trail))
      else match CloseFence(body)
        case Some((group, gap, trail)) => Some(FenceMatch(lead, false, group, gap, trail))
        case None => None
  {
    assert data == lead + (Fence + body);
    OpenFenceOf(lead, Fence + body);
    assert data[..LeadCount(data)] == lead;
    assert (Fence + body)[3..] == body;
  }

  /** Regrouping of the concatenations the fence lemmas use, stated over
      arbitrary strings so that no literal is unfolded. */
  lemma Regroup(lead: string, open: string, tag: string, inner: string, close: string, trail: string)
    ensures lead + open + tag + inner + close + trail == lead + open + (tag + (inner + close + trail))
  {
  }

  lemma EmptyRegroup(open: string, inner: string, close: string)
    ensures "" + open + "" + inner + close + "" == open + inner + close
  {
  }

  /** How the pattern cuts tagged fenced text. */
  lemma MatchFenceTagged(lead: string, inner: string, trail: string)
    requires AllSpace(lead) && AllSpace(trail)
    ensures MatchFence(lead + Fence + JsonTag + inner + Fence + trail)
         == Some(FenceMatch(lead, true, RStrip(inner), inner[|RStrip(inner)|..], trail))
  {
    var closing := inner + Fence + trail;
    CloseFenceOf(inner, trail);
    var body := JsonTag + closing;
    Regroup(lead, Fence, JsonTag, inner, Fence, trail);
    MatchFenceBody(lead + Fence + body, lead, body);
    assert body[5..] == closing;
  }

  /** How the pattern cuts untagged fenced text. */
  lemma MatchFenceUntagged(lead: string, inner: string, trail: string)
    requires AllSpace(lead) && AllSpace(trail) && !StartsWith(inner, JsonTag)
    ensures MatchFence(lead + Fence + "" + inner + Fence + trail)
         == Some(FenceMatch(lead, false, RStrip(inner), inner[|RStrip(inner)|..], trail))
  {
    var closing := inner + Fence + trail;
    CloseFenceOf(inner, trail);
    Regroup(lead, Fence, "", inner, Fence, trail);
    assert "" + closing == closing;
    MatchFenceBody(lead + Fence + closing, lead, closing);
    UntaggedBody(inner, trail);
  }

  /** How the pattern cuts fenced text with whitespace around the fences. */
  lemma MatchFenceOf(lead: string, tagged: bool, inner: string, trail: string)
    requires AllSpace(lead) && AllSpace(trail)
    requires tagged || !StartsWith(inner, JsonTag)
    ensures MatchFence(lead + Fence + (if tagged then JsonTag else "") + inner + Fence + trail)
         == Some(FenceMatch(lead, tagged, RStrip(inner), inner[|RStrip(inner)|..], trail))
  {
    if tagged {
      MatchFenceTagged(lead, inner, trail);
    } else {
      MatchFenceUntagged(lead, inner, trail);
    }
  }

  /** Any fenced text, with whitespace around the fences, strips to its
      content: the "json" tag goes when a newline follows it, and content
      that does not itself start with that tag is kept as it is, stripped. */
  lemma StripFenced(lead: string, tagged: bool, inner: string, trail: string)
    requires AllSpace(lead) && AllSpace(trail)
    requires tagged || !StartsWith(inner, JsonTag)
    ensures StripJsonMarkers(lead + Fence + (if tagged then JsonTag else "") + inner + Fence + trail) == Strip(inner)
  {
    MatchFenceOf(lead, tagged, inner, trail);
    RStripTwice(inner);
  }

  /** The input comes back unchanged exactly when the pattern does not match. */
  lemma StripUnchangedIffNoMatch(data: string)
    ensures StripJsonMarkers(data) == data <==> MatchFence(data).None?
  {
    if MatchFence(data).Some? {
      var m := MatchFence(data).value;
      StripShape(m.group);
      assert |data| >= |m.group| + 6;
    }
  }

  /** Stripping twice is stripping once, unless what the first strip leaves
      itself starts with a fence. */
  lemma StripIdempotent(data: string)
    requires !StartsWith(StripJsonMarkers(data), Fence)
    ensures StripJsonMarkers(StripJsonMarkers(data)) == StripJsonMarkers(data)
  {
    var r := StripJsonMarkers(data);
    if MatchFence(data).Some? {
      StripShape(MatchFence(data).value.group);
      assert LeadCount(r) == 0;
      assert LStrip(r) == r;
    }
  }

  lemma NestedConcat(a: string, content: string, b: string, inner: string)
    requires inner == a + (Fence + content + Fence) + b
    ensures "" + Fence + "" + inner + Fence + "" == Fence + a + Fence + content + Fence + b + Fence
  {
  }

  lemma UnpaddedFenced(a: string, content: string, b: string)
    requires AllSpace(a) && AllSpace(b)
    ensures !StartsWith(a + (Fence + content + Fence) + b, JsonTag)
    ensures Strip(a + (Fence + content + Fence) + b) == Fence + content + Fence
  {
    var fenced := Fence + content + Fence;
    var inner := a + fenced + b;
    if |a| > 0 { assert inner[0] == a[0]; } else { assert inner[0] == '`'; }
    StripPadded(a, fenced, b);
    assert fenced[0] == '`' && fenced[|fenced| - 1] == '`';
    StripUnpadded(fenced);
  }

  /** Fenced content inside a second pair of fences, with only whitespace
      between each pair: only the outer pair goes. */
  lemma StripNested(a: string, content: string, b: string)
    requires AllSpace(a) && AllSpace(b)
    ensures StripJsonMarkers(Fence + a + Fence + content + Fence + b + Fence) == Fence + content + Fence
  {
    var inner := a + (Fence + content + Fence) + b;
    UnpaddedFenced(a, content, b);
    StripFenced("", false, inner, "");
    NestedConcat(a, content, b, inner);
  }

  /** Fences with no whitespace around them. */
  lemma StripInline(content: string)
    requires !StartsWith(content, JsonTag)
    ensures StripJsonMarkers(Fence + content + Fence) == Strip(content)
  {
    StripFenced("", false, content, "");
    EmptyRegroup(Fence, content, Fence);
  }

  /** Stripping is not idempotent for content inside two pairs of fences:
      the first strip removes only the outer fences, the second the inner
      ones. */
  lemma StripNotIdempotent(a: string, content: string, b: string)
    requires AllSpace(a) && AllSpace(b) && !StartsWith(content, JsonTag)
    ensures var nested := Fence + a + Fence + content + Fence + b + Fence;
      && StripJsonMarkers(nested) == Fence + content + Fence
      && StripJsonMarkers(Fence + content + Fence) == Strip(content)
      && StripJsonMarkers(StripJsonMarkers(nested)) != StripJsonMarkers(nested)
  {
    StripNested(a, content, b);
    StripInline(content);
    StripShape(content);
  }

  /** Text whose first non-space characters are not a fence comes back
      unchanged. */
  lemma StripUnopened(data: string)
    requires !StartsWith(LStrip(data), Fence)
    ensures StripJsonMarkers(data) == data
  {
  }

  /** What follows a prefix cannot end in a fence unless the whole does. */
  lemma ClosedSuffix(a: string, t: string)
    requires EndsWith(RStrip(t), Fence)
    ensures EndsWith(RStrip(a + t), Fence)
  {
    TrailCountPrefixed(a, t);
    assert RStrip(a + t) == a + RStrip(t);
  }

  /** An opening fence with no closing fence after it leaves the text
      unchanged, tagged or not. */
  lemma StripUnclosed(data: string)
    requires StartsWith(LStrip(data), Fence)
    requires !EndsWith(RStrip(LStrip(data)[3..]), Fence)
    ensures StripJsonMarkers(data) == data
  {
    var body := LStrip(data)[3..];
    if StartsWith(body, JsonTag) && EndsWith(RStrip(body[5..]), Fence) {
      PrefixSplit(body, JsonTag);
      ClosedSuffix(JsonTag, body[5..]);
      assert false;
    }
  }
}
