/**
 * The API's search type, as the search command names it, and the decoding
 * of an action's `elements`, which the API sends either as a JSON object or
 * as a string holding one.
 */
module ApiTypes {
  import opened Wrappers
  import opened Json

  // ---------------------------------------------------------------------
  // SearchType
  // ---------------------------------------------------------------------

  datatype SearchType = Vector | Fulltext | Hybrid

  /** `#[default]`: hybrid search. */
  function DefaultSearchType(): (t: SearchType)
    ensures t == Hybrid
  {
    Hybrid
  }

  /** The `Display` name, which is also the lower-case serde name. */
  function SearchTypeName(t: SearchType): string
  {
    match t
    case Vector => "vector"
    case Fulltext => "fulltext"
    case Hybrid => "hybrid"
  }

  /** The search command's parse of `--type`: the three names exactly, anything else hybrid. */
  function ParseSearchType(s: string): (t: SearchType)
    ensures s != "vector" && s != "fulltext" ==> t == Hybrid
  {
    if s == "vector" then Vector
    else if s == "fulltext" then Fulltext
    else Hybrid
  }

  /** Parsing a displayed name gives back the search type, and displaying is injective. */
  lemma SearchTypeRoundTrip(t: SearchType)
    ensures ParseSearchType(SearchTypeName(t)) == t
    ensures forall u :: SearchTypeName(u) == SearchTypeName(t) ==> u == t
  {
    assert "vector"[0] != "fulltext"[0] && "vector"[0] != "hybrid"[0] && "fulltext"[0] != "hybrid"[0];
  }

  /** A name that is none of the three falls back to the default. */
  lemma UnknownSearchType(s: string)
    requires forall t :: s != SearchTypeName(t)
    ensures ParseSearchType(s) == DefaultSearchType()
  {
    assert s != SearchTypeName(Vector) && s != SearchTypeName(Fulltext);
  }

  // ---------------------------------------------------------------------
  // ElementInfo
  // ---------------------------------------------------------------------

  datatype ElementInfo = ElementInfo(
    cssSelector: Option<string>,
    xpathSelector: Option<string>,
    description: Option<string>,
    elementType: Option<string>,
    allowMethods: Option<seq<string>>,
    dependsOn: Option<string>)

  /** An `Option<String>` field: absent or null is None, a string is Some, anything else fails. */
  function DecodeOptString(j: Option<Json>): (r: Result<Option<string>, ()>)
    ensures r.Ok? <==> j.None? || j.value.JNull? || j.value.JStr?
    ensures r.Ok? && r.value.Some? ==> j == Some(JStr(r.value.value))
  {
    match j
    case None => Ok(None)
    case Some(JNull) => Ok(None)
    case Some(JStr(s)) => Ok(Some(s))
    case Some(_) => Err(())
  }

  /** The strings of an array whose items are all strings. */
  function Strings(items: seq<Json>): (r: Result<seq<string>, ()>)
    ensures r.Ok? <==> forall i :: 0 <= i < |items| ==> items[i].JStr?
    ensures r.Ok? ==> |r.value| == |items| && forall i :: 0 <= i < |items| ==> items[i] == JStr(r.value[i])
  {
    if items == [] then Ok([])
    else if !items[0].JStr? then Err(())
    else match Strings(items[1..])
      case Err(_) => Err(())
      case Ok(rest) => Ok([items[0].s] + rest)
  }

  /** An `Option<Vec<String>>` field. */
  function DecodeOptStrings(j: Option<Json>): (r: Result<Option<seq<string>>, ()>)
  {
    match j
    case None => Ok(None)
    case Some(JNull) => Ok(None)
    case Some(JArr(items)) =>
      (match Strings(items)
       case Err(_) => Err(())
       case Ok(ss) => Ok(Some(ss)))
    case Some(_) => Err(())
  }

  /** The six field values, in declaration order, decoded into an element. */
  function DecodeValues(css: Option<Json>, xpath: Option<Json>, desc: Option<Json>, kind: Option<Json>,
                        methods: Option<Json>, depends: Option<Json>): Result<ElementInfo, ()>
  {
    var c := DecodeOptString(css);
    var x := DecodeOptString(xpath);
    var d := DecodeOptString(desc);
    var k := DecodeOptString(kind);
    var m := DecodeOptStrings(methods);
    var p := DecodeOptString(depends);
    if c.Err? || x.Err? || d.Err? || k.Err? || m.Err? || p.Err? then Err(())
    else Ok(ElementInfo(c.value, x.value, d.value, k.value, m.value, p.value))
  }

  /**
   * The derived `Deserialize` of `ElementInfo`: an object whose known fields
   * all have the right kind, or an array of exactly six values taken as the
   * fields in declaration order.
   */
  function DecodeInfo(j: Json): (r: Result<ElementInfo, ()>)
    ensures r.Ok? ==> j.JObj? || (j.JArr? && |j.items| == 6)
  {
    if j.JObj? then
      DecodeValues(Get(j, "css_selector"), Get(j, "xpath_selector"), Get(j, "description"),
        Get(j, "element_type"), Get(j, "allow_methods"), Get(j, "depends_on"))
    else if j.JArr? && |j.items| == 6 then
      DecodeValues(Some(j.items[0]), Some(j.items[1]), Some(j.items[2]),
        Some(j.items[3]), Some(j.items[4]), Some(j.items[5]))
    else Err(())
  }

  function OptStringJson(s: Option<string>): Json
  {
    if s.Some? then JStr(s.value) else JNull
  }

  function OptStringsJson(s: Option<seq<string>>): Json
  {
    if s.Some? then JArr(seq(|s.value|, i requires 0 <= i < |s.value| => JStr(s.value[i]))) else JNull
  }

  /** The derived `Serialize` of `ElementInfo`: every field, None written as null. */
  function EncodeInfo(e: ElementInfo): Json
  {
    JObj([("css_selector", OptStringJson(e.cssSelector)),
          ("xpath_selector", OptStringJson(e.xpathSelector)),
          ("description", OptStringJson(e.description)),
          ("element_type", OptStringJson(e.elementType)),
          ("allow_methods", OptStringsJson(e.allowMethods)),
          ("depends_on", OptStringJson(e.dependsOn))])
  }

  lemma OptStringRoundTrip(s: Option<string>)
    ensures DecodeOptString(Some(OptStringJson(s))) == Ok(s)
  {
  }

  lemma OptStringsRoundTrip(s: Option<seq<string>>)
    ensures DecodeOptStrings(Some(OptStringsJson(s))) == Ok(s)
  {
    if s.Some? {
      var items := seq(|s.value|, i requires 0 <= i < |s.value| => JStr(s.value[i]));
      var r := Strings(items);
      assert r.Ok?;
      assert r.value == s.value;
    }
  }

  /** The three selector-and-description fields of an encoded element are found under their names. */
  lemma EncodedLeadingFields(e: ElementInfo)
    ensures var j := EncodeInfo(e);
      && Get(j, "css_selector") == Some(OptStringJson(e.cssSelector))
      && Get(j, "xpath_selector") == Some(OptStringJson(e.xpathSelector))
      && Get(j, "description") == Some(OptStringJson(e.description))
  {
    var f := EncodeInfo(e).fields;
    assert "css_selector"[0] == 'c' && "xpath_selector"[0] == 'x' && "description"[0] == 'd';
    FindFieldAt(f, "css_selector", 0);
    FindFieldAt(f, "xpath_selector", 1);
    FindFieldAt(f, "description", 2);
  }

  /** The type, methods and dependency fields of an encoded element are found under their names. */
  lemma EncodedTrailingFields(e: ElementInfo)
    ensures var j := EncodeInfo(e);
      && Get(j, "element_type") == Some(OptStringJson(e.elementType))
      && Get(j, "allow_methods") == Some(OptStringsJson(e.allowMethods))
      && Get(j, "depends_on") == Some(OptStringJson(e.dependsOn))
  {
    var f := EncodeInfo(e).fields;
    assert "css_selector"[0] == 'c' && "xpath_selector"[0] == 'x' && "description"[0] == 'd';
    assert "element_type"[0] == 'e' && "allow_methods"[0] == 'a' && "depends_on"[0] == 'd';
    assert |"description"| != |"depends_on"|;
    FindFieldAt(f, "element_type", 3);
    FindFieldAt(f, "allow_methods", 4);
    FindFieldAt(f, "depends_on", 5);
  }

  /** Decoding what serialization writes gives back the element. */
  lemma InfoRoundTrip(e: ElementInfo)
    ensures DecodeInfo(EncodeInfo(e)) == Ok(e)
  {
    EncodedLeadingFields(e);
    EncodedTrailingFields(e);
    OptStringRoundTrip(e.cssSelector);
    OptStringRoundTrip(e.xpathSelector);
    OptStringRoundTrip(e.description);
    OptStringRoundTrip(e.elementType);
    OptStringsRoundTrip(e.allowMethods);
    OptStringRoundTrip(e.dependsOn);
  }
  /** The array form: the six serialized values in declaration order. */
  function EncodeInfoSeq(e: ElementInfo): Json
  {
    JArr([OptStringJson(e.cssSelector), OptStringJson(e.xpathSelector), OptStringJson(e.description),
          OptStringJson(e.elementType), OptStringsJson(e.allowMethods), OptStringJson(e.dependsOn)])
  }

  /** The array form decodes to the same element as the object form. */
  lemma InfoSeqRoundTrip(e: ElementInfo)
    ensures DecodeInfo(EncodeInfoSeq(e)) == Ok(e)
    ensures DecodeInfo(EncodeInfoSeq(e)) == DecodeInfo(EncodeInfo(e))
  {
    InfoRoundTrip(e);
    OptStringRoundTrip(e.cssSelector);
    OptStringRoundTrip(e.xpathSelector);
    OptStringRoundTrip(e.description);
    OptStringRoundTrip(e.elementType);
    OptStringsRoundTrip(e.allowMethods);
    OptStringRoundTrip(e.dependsOn);
  }

  /** Six nulls make the element with every field absent; any other length is refused. */
  lemma InfoSeqLength(items: seq<Json>)
    ensures |items| == 6 && (forall i :: 0 <= i < 6 ==> items[i] == JNull) ==>
      DecodeInfo(JArr(items)) == Ok(ElementInfo(None, None, None, None, None, None))
    ensures |items| != 6 ==> DecodeInfo(JArr(items)).Err?
  {
  }


  // ---------------------------------------------------------------------
  // deserialize_elements
  // ---------------------------------------------------------------------

  /**
   * Decoding a JSON object into `HashMap<String, ElementInfo>`: every value
   * must decode, and a later field of the same name replaces an earlier one.
   */
  function DecodeFields(fields: seq<(string, Json)>): Result<map<string, ElementInfo>, ()>
    decreases |fields|
  {
    if fields == [] then Ok(map[])
    else
      var last := fields[|fields| - 1];
      match DecodeFields(fields[..|fields| - 1])
      case Err(_) => Err(())
      case Ok(m) =>
        match DecodeInfo(last.1)
        case Err(_) => Err(())
        case Ok(e) => Ok(m[last.0 := e])
  }

  /** The names of an object's fields. */
  function FieldNames(fields: seq<(string, Json)>): (r: set<string>)
    ensures forall i :: 0 <= i < |fields| ==> fields[i].0 in r
    ensures forall x :: x in r ==> exists i :: 0 <= i < |fields| && fields[i].0 == x
    decreases |fields|
  {
    if fields == [] then {}
    else
      var init := fields[..|fields| - 1];
      assert forall i :: 0 <= i < |init| ==> init[i] == fields[i];
      FieldNames(init) + {fields[|fields| - 1].0}
  }

  /** The map decodes exactly when every value does. */
  lemma {:induction false} DecodeFieldsOk(fields: seq<(string, Json)>)
    ensures DecodeFields(fields).Ok? <==> forall i :: 0 <= i < |fields| ==> DecodeInfo(fields[i].1).Ok?
    decreases |fields|
  {
    if fields != [] {
      var init := fields[..|fields| - 1];
      DecodeFieldsOk(init);
      assert forall i :: 0 <= i < |init| ==> init[i] == fields[i];
    }
  }

  /** The decoded map's keys are the object's field names. */
  lemma {:induction false} DecodeFieldsKeys(fields: seq<(string, Json)>)
    requires DecodeFields(fields).Ok?
    ensures DecodeFields(fields).value.Keys == FieldNames(fields)
    decreases |fields|
  {
    if fields != [] {
      DecodeFieldsKeys(fields[..|fields| - 1]);
    }
  }

  /** The element under a key is decoded from the last field of that name. */
  lemma {:induction false} DecodeFieldsLastWins(fields: seq<(string, Json)>, k: nat)
    requires k < |fields| && DecodeFields(fields).Ok?
    requires forall j :: k < j < |fields| ==> fields[j].0 != fields[k].0
    ensures DecodeInfo(fields[k].1).Ok?
    ensures fields[k].0 in DecodeFields(fields).value
    ensures DecodeFields(fields).value[fields[k].0] == DecodeInfo(fields[k].1).value
    decreases |fields|
  {
    var init := fields[..|fields| - 1];
    if k < |fields| - 1 {
      assert forall j :: k < j < |init| ==> init[j] == fields[j];
      DecodeFieldsLastWins(init, k);
    }
  }

  /** Why `elements` could not be decoded. */
  datatype ElementsError =
    | ParseFailed    // "Failed to parse elements: ...", from the JSON parser or the map decoder
    | WrongKind      // "Expected string or object for elements"

  function DecodeObject(fields: seq<(string, Json)>): Result<Option<map<string, ElementInfo>>, ElementsError>
  {
    match DecodeFields(fields)
    case Err(_) => Err(ParseFailed)
    case Ok(m) => Ok(Some(m))
  }

  /**
   * `deserialize_elements`: absent or null is None, a string is parsed (by
   * `parse`, standing for `serde_json::from_str`) and decoded, an object is
   * decoded directly, and any other kind is an error.
   */
  function DeserializeElements(value: Option<Json>, parse: string -> Option<Json>)
    : (r: Result<Option<map<string, ElementInfo>>, ElementsError>)
    ensures value.None? || value == Some(JNull) ==> r == Ok(None)
    ensures value.Some? && (value.value.JBool? || value.value.JNum? || value.value.JArr?) ==> r == Err(WrongKind)
    ensures value.Some? && value.value.JObj? ==>
      (r.Ok? <==> forall i :: 0 <= i < |value.value.fields| ==> DecodeInfo(value.value.fields[i].1).Ok?)
    ensures value.Some? && value.value.JStr? ==>
      (r.Ok? <==> (parse(value.value.s).Some? && parse(value.value.s).value.JObj?
         && forall i :: 0 <= i < |parse(value.value.s).value.fields| ==> DecodeInfo(parse(value.value.s).value.fields[i].1).Ok?))
    ensures r.Ok? && r.value.Some? ==> value.Some? && (value.value.JStr? || value.value.JObj?)
  {
    match value
    case None => Ok(None)
    case Some(JNull) => Ok(None)
    case Some(JStr(s)) =>
      (match parse(s)
       case None => Err(ParseFailed)
       case Some(JObj(fields)) =>
         DecodeFieldsOk(fields);
         DecodeObject(fields)
       case Some(_) => Err(ParseFailed))
    case Some(JObj(fields)) =>
      DecodeFieldsOk(fields);
      DecodeObject(fields)
    case Some(_) => Err(WrongKind)
  }

  /** A string holding an object decodes to the same elements as the object itself. */
  lemma StringAndObjectAgree(s: string, fields: seq<(string, Json)>, parse: string -> Option<Json>)
    requires parse(s) == Some(JObj(fields))
    ensures DeserializeElements(Some(JStr(s)), parse) == DeserializeElements(Some(JObj(fields)), parse)
  {
  }

  lemma EncodedValuesDecode(fields: seq<(string, Json)>, elems: seq<ElementInfo>)
    requires |fields| == |elems|
    requires forall i :: 0 <= i < |fields| ==> fields[i].1 == EncodeInfo(elems[i])
    ensures forall i :: 0 <= i < |fields| ==> DecodeInfo(fields[i].1) == Ok(elems[i])
  {
    forall i | 0 <= i < |fields|
      ensures DecodeInfo(fields[i].1) == Ok(elems[i])
    {
      InfoRoundTrip(elems[i]);
    }
  }

  /** An object of encoded elements with distinct names decodes to exactly those elements. */
  lemma EncodedElements(fields: seq<(string, Json)>, elems: seq<ElementInfo>, parse: string -> Option<Json>)
    requires |fields| == |elems|
    requires forall i, j :: 0 <= i < j < |fields| ==> fields[i].0 != fields[j].0
    requires forall i :: 0 <= i < |fields| ==> fields[i].1 == EncodeInfo(elems[i])
    ensures var r := DeserializeElements(Some(JObj(fields)), parse);
      && r.Ok? && r.value.Some?
      && r.value.value.Keys == FieldNames(fields)
      && forall i :: 0 <= i < |fields| ==> r.value.value[fields[i].0] == elems[i]
  {
    EncodedValuesDecode(fields, elems);
    DecodeFieldsOk(fields);
    DecodeFieldsKeys(fields);
    forall i | 0 <= i < |fields|
      ensures DecodeFields(fields).value[fields[i].0] == elems[i]
    {
      DecodeFieldsLastWins(fields, i);
    }
  }
}
