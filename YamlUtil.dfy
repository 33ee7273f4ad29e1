/**
 * The YAML to JSON conversion used when pipeline configurations are written
 * in YAML: the decode cascade for scalars, the structural recursion over
 * sequences and maps, and the two wrappers that turn exceptions into an
 * error message.
 *
 * yaml-cpp is foreign code: the loader and the scalar decoders are
 * parameters, and a node is an abstract tree of the kinds it distinguishes.
 */
module YamlUtil {
  import opened Wrappers
  import opened Json

  /** A yaml-cpp node: a scalar carries its tag ("!" when it was quoted, "?" when
      it was plain) and its text. */
  datatype Node =
    | NullNode
    | Scalar(tag: string, text: string)
    | Sequence(items: seq<Node>)
    | Mapping(entries: seq<Entry>)
    | Undefined

  datatype Entry = Entry(key: Node, value: Node)

  /** YAML::convert<T>::decode for int, double, bool and std::string on a plain
      scalar's text (None where the decoder returns false), and the what() of
      the exception that as<std::string>() throws on a key that is not a scalar. */
  datatype Decoders = Decoders(
    asInt: string -> Option<int>,
    asDouble: string -> Option<real>,
    asBool: string -> Option<bool>,
    asString: string -> Option<string>,
    badConversion: string)

  /** What YAML::Load does with a document: a tree, or one of the exceptions it throws. */
  datatype LoadOutcome =
    | Loaded(root: Node)
    | ParserError(what: string)
    | OtherException(what: string)
    | UnknownException

  const ParseFailedPrefix: string := "parse yaml failed: "
  const StdExceptionPrefix: string := "unknown std::exception: "
  const UnknownError: string := "unknown error"

  // ---------------------------------------------------------------------------
  // Scalars
  // ---------------------------------------------------------------------------

  /** parseScalar: a quoted scalar is a string; a plain one is the first of
      int, double, bool and string that decodes, and null when none does. */
  function ParseScalar(tag: string, text: string, dec: Decoders): (r: Value)
    ensures tag == "!" ==> r == Str(text)
    ensures tag != "!" ==> (r.Int? <==> dec.asInt(text).Some?)
    ensures tag != "!" ==> (r.Double? <==> dec.asInt(text).None? && dec.asDouble(text).Some?)
    ensures tag != "!" ==> (r.Bool? <==> dec.asInt(text).None? && dec.asDouble(text).None? && dec.asBool(text).Some?)
    ensures tag != "!" ==> (r.Null? <==> dec.asInt(text).None? && dec.asDouble(text).None? && dec.asBool(text).None? && dec.asString(text).None?)
    ensures !r.Array? && !r.Object?
  {
    if tag == "!" then Str(text)
    else
      match dec.asInt(text)
      case Some(i) => Int(i)
      case None =>
        match dec.asDouble(text)
        case Some(d) => Double(d)
        case None =>
          match dec.asBool(text)
          case Some(b) => Bool(b)
          case None =>
            match dec.asString(text)
            case Some(s) => Str(s)
            case None => Null
  }

  /** The value a scalar decodes to is one its decoders produced from its text, or its text when quoted. */
  lemma ScalarFromDecoders(tag: string, text: string, dec: Decoders)
    ensures var r := ParseScalar(tag, text, dec);
      && (r.Int? ==> Some(r.i) == dec.asInt(text))
      && (r.Double? ==> Some(r.d) == dec.asDouble(text))
      && (r.Bool? ==> Some(r.b) == dec.asBool(text))
      && (r.Str? ==> (tag == "!" && r.s == text) || (tag != "!" && Some(r.s) == dec.asString(text)))
  {
  }

  // ---------------------------------------------------------------------------
  // The tree
  // ---------------------------------------------------------------------------

  /** CovertYamlToJson(node): null and undefined nodes give null, a scalar its
      decoded value, a sequence an array and a map an object; Err carries what()
      of the exception that escapes. */
  function ToJson(node: Node, dec: Decoders): Result<Value, string>
    decreases node, 1
  {
    match node
    case NullNode => Ok(Null)
    case Scalar(tag, text) => Ok(ParseScalar(tag, text, dec))
    case Sequence(items) =>
      (match ItemsToJson(node, |items|, dec)
       case Err(e) => Err(e)
       case Ok(values) => Ok(Array(values)))
    case Mapping(entries) =>
      (match EntriesToJson(node, |entries|, dec)
       case Err(e) => Err(e)
       case Ok(members) => Ok(Object(members)))
    case Undefined => Ok(Null)
  }

  /** The loop over a sequence: the first n items converted, in order. */
  function ItemsToJson(parent: Node, n: nat, dec: Decoders): Result<seq<Value>, string>
    requires parent.Sequence? && n <= |parent.items|
    decreases parent, 0, n
  {
    if n == 0 then Ok([])
    else
      match ItemsToJson(parent, n - 1, dec)
      case Err(e) => Err(e)
      case Ok(front) =>
        match ToJson(parent.items[n - 1], dec)
        case Err(e) => Err(e)
        case Ok(v) => Ok(front + [v])
  }

  /** The key of a map entry as as<std::string>() reads it: a scalar's text. */
  function KeyText(key: Node): Option<string>
  {
    if key.Scalar? then Some(key.text) else None
  }

  /** The loop over a map: the first n entries converted, a later entry replacing
      an earlier one with the same key. The value is converted before the key is
      read, as C++17 sequences the right operand of an assignment first. */
  function EntriesToJson(parent: Node, n: nat, dec: Decoders): Result<map<string, Value>, string>
    requires parent.Mapping? && n <= |parent.entries|
    decreases parent, 0, n
  {
    if n == 0 then Ok(map[])
    else
      match EntriesToJson(parent, n - 1, dec)
      case Err(e) => Err(e)
      case Ok(front) =>
        match ToJson(parent.entries[n - 1].value, dec)
        case Err(e) => Err(e)
        case Ok(v) =>
          match KeyText(parent.entries[n - 1].key)
          case None => Err(dec.badConversion)
          case Some(k) => Ok(front[k := v])
  }

  /** The null and undefined nodes give null. */
  lemma NullGivesNull(dec: Decoders)
    ensures ToJson(NullNode, dec) == Ok(Null)
    ensures ToJson(Undefined, dec) == Ok(Null)
  {
  }

  /** A sequence converts exactly when all its items do, to an array of the same
      length whose item i is the conversion of item i. */
  lemma {:induction false} ItemsConverted(parent: Node, n: nat, dec: Decoders)
    requires parent.Sequence? && n <= |parent.items|
    ensures ItemsToJson(parent, n, dec).Ok? <==> forall i :: 0 <= i < n ==> ToJson(parent.items[i], dec).Ok?
    ensures ItemsToJson(parent, n, dec).Ok? ==>
      |ItemsToJson(parent, n, dec).value| == n
      && forall i :: 0 <= i < n ==> ItemsToJson(parent, n, dec).value[i] == ToJson(parent.items[i], dec).value
    decreases n
  {
    if n > 0 {
      ItemsConverted(parent, n - 1, dec);
    }
  }

  lemma SequenceConverted(items: seq<Node>, dec: Decoders)
    ensures ToJson(Sequence(items), dec).Ok? <==> forall i :: 0 <= i < |items| ==> ToJson(items[i], dec).Ok?
    ensures ToJson(Sequence(items), dec).Ok? ==>
      var r := ToJson(Sequence(items), dec).value;
      r.Array? && |r.items| == |items| && forall i :: 0 <= i < |items| ==> r.items[i] == ToJson(items[i], dec).value
  {
    ItemsConverted(Sequence(items), |items|, dec);
  }

  /** An empty sequence gives an empty array and an empty map an empty object, not null. */
  lemma EmptyCollections(dec: Decoders)
    ensures ToJson(Sequence([]), dec) == Ok(Array([]))
    ensures ToJson(Mapping([]), dec) == Ok(Object(map[]))
  {
  }

  /** The entry's key reads as k. */
  predicate Binds(e: Entry, k: string)
  {
    KeyText(e.key) == Some(k)
  }

  /** Every entry of a converted prefix has a scalar key and a convertible value. */
  lemma {:induction false} EntriesConvertedOk(parent: Node, n: nat, dec: Decoders)
    requires parent.Mapping? && n <= |parent.entries|
    requires EntriesToJson(parent, n, dec).Ok?
    ensures forall i :: 0 <= i < n ==> KeyText(parent.entries[i].key).Some? && ToJson(parent.entries[i].value, dec).Ok?
    decreases n
  {
    if n > 0 {
      EntriesConvertedOk(parent, n - 1, dec);
    }
  }

  /** The keys of a converted prefix are the keys its entries bind. */
  lemma {:induction false} EntriesConvertedKeys(parent: Node, n: nat, dec: Decoders, k: string)
    requires parent.Mapping? && n <= |parent.entries|
    requires EntriesToJson(parent, n, dec).Ok?
    ensures k in EntriesToJson(parent, n, dec).value <==> exists i :: 0 <= i < n && Binds(parent.entries[i], k)
    decreases n
  {
    if n > 0 {
      EntriesConvertedKeys(parent, n - 1, dec, k);
      var e := parent.entries[n - 1];
      var key := KeyText(e.key).value;
      assert EntriesToJson(parent, n, dec).value == EntriesToJson(parent, n - 1, dec).value[key := ToJson(e.value, dec).value];
      assert Binds(e, key);
    }
  }

  /** The last entry of a converted prefix that binds k decides the value of k. */
  lemma {:induction false} EntriesConvertedLast(parent: Node, n: nat, dec: Decoders, k: string, i: nat)
    requires parent.Mapping? && i < n <= |parent.entries|
    requires EntriesToJson(parent, n, dec).Ok?
    requires Binds(parent.entries[i], k) && forall j :: i < j < n ==> !Binds(parent.entries[j], k)
    ensures k in EntriesToJson(parent, n, dec).value && ToJson(parent.entries[i].value, dec).Ok?
    ensures EntriesToJson(parent, n, dec).value[k] == ToJson(parent.entries[i].value, dec).value
    decreases n
  {
    EntriesConvertedOk(parent, n, dec);
    var e := parent.entries[n - 1];
    var key := KeyText(e.key).value;
    assert EntriesToJson(parent, n, dec).value == EntriesToJson(parent, n - 1, dec).value[key := ToJson(e.value, dec).value];
    if i < n - 1 {
      assert !Binds(e, k);
      EntriesConvertedLast(parent, n - 1, dec, k, i);
    }
  }

  /** Each entry of a converted map binds its key, and the last entry with a given key decides its value. */
  lemma EntriesConverted(parent: Node, n: nat, dec: Decoders, k: string)
    requires parent.Mapping? && n <= |parent.entries|
    requires EntriesToJson(parent, n, dec).Ok?
    ensures forall i :: 0 <= i < n ==> KeyText(parent.entries[i].key).Some? && ToJson(parent.entries[i].value, dec).Ok?
    ensures k in EntriesToJson(parent, n, dec).value <==> exists i :: 0 <= i < n && Binds(parent.entries[i], k)
    ensures forall i :: (0 <= i < n && Binds(parent.entries[i], k) && (forall j :: i < j < n ==> !Binds(parent.entries[j], k))
      ==> EntriesToJson(parent, n, dec).value[k] == ToJson(parent.entries[i].value, dec).value)
  {
    EntriesConvertedOk(parent, n, dec);
    EntriesConvertedKeys(parent, n, dec, k);
    forall i | 0 <= i < n && Binds(parent.entries[i], k) && (forall j :: i < j < n ==> !Binds(parent.entries[j], k))
      ensures EntriesToJson(parent, n, dec).value[k] == ToJson(parent.entries[i].value, dec).value
    {
      EntriesConvertedLast(parent, n, dec, k, i);
    }
  }

  /** The map of a converted mapping node: its keys are the entries' keys and the last entry for a key decides its value. */
  lemma MappingConverted(entries: seq<Entry>, dec: Decoders, k: string)
    requires ToJson(Mapping(entries), dec).Ok?
    ensures var r := ToJson(Mapping(entries), dec).value;
      && r.Object?
      && (forall i :: 0 <= i < |entries| ==> KeyText(entries[i].key).Some? && ToJson(entries[i].value, dec).Ok?)
      && (k in r.members <==> exists i :: 0 <= i < |entries| && Binds(entries[i], k))
      && forall i :: (0 <= i < |entries| && Binds(entries[i], k) && (forall j :: i < j < |entries| ==> !Binds(entries[j], k))
        ==> r.members[k] == ToJson(entries[i].value, dec).value)
  {
    EntriesConverted(Mapping(entries), |entries|, dec, k);
  }

  /** A mapping with a key that is not a scalar cannot be converted. */
  lemma {:induction false} NonScalarKeyFails(parent: Node, n: nat, dec: Decoders, i: nat)
    requires parent.Mapping? && i < n <= |parent.entries|
    requires !parent.entries[i].key.Scalar?
    ensures EntriesToJson(parent, n, dec).Err?
    decreases n
  {
    if i < n - 1 {
      NonScalarKeyFails(parent, n - 1, dec, i);
    }
  }

  // ---------------------------------------------------------------------------
  // The wrappers
  // ---------------------------------------------------------------------------

  /** ParseYamlConfig: the loaded tree and true, or false with a message naming the
      kind of exception; the root and the message are left alone where not written. */
  function ParseYamlConfig(config: string, root: Node, errorMsg: string, load: string -> LoadOutcome)
    : (r: (bool, Node, string))
    ensures r.0 <==> load(config).Loaded?
    ensures r.0 ==> r.1 == load(config).root && r.2 == errorMsg
    ensures !r.0 ==> r.1 == root
    ensures load(config).ParserError? ==> r.2 == ParseFailedPrefix + load(config).what
    ensures load(config).OtherException? ==> r.2 == StdExceptionPrefix + load(config).what
    ensures load(config).UnknownException? ==> r.2 == UnknownError
  {
    match load(config)
    case Loaded(node) => (true, node, errorMsg)
    case ParserError(what) => (false, root, ParseFailedPrefix + what)
    case OtherException(what) => (false, root, StdExceptionPrefix + what)
    case UnknownException => (false, root, UnknownError)
  }

  /** CovertYamlToJson(root, res, errorMsg): the conversion and true, or false with
      the message of the exception, which is a std::exception but not a parser error. */
  function CovertYamlToJson(root: Node, res: Value, errorMsg: string, dec: Decoders): (r: (bool, Value, string))
    ensures r.0 <==> ToJson(root, dec).Ok?
    ensures r.0 ==> r.1 == ToJson(root, dec).value && r.2 == errorMsg
    ensures !r.0 ==> r.1 == res && r.2 == StdExceptionPrefix + ToJson(root, dec).error
  {
    match ToJson(root, dec)
    case Ok(v) => (true, v, errorMsg)
    case Err(what) => (false, res, StdExceptionPrefix + what)
  }

  /** A document whose only failure is a key that is not a scalar is reported as a std::exception. */
  lemma BadKeyReported(entries: seq<Entry>, i: nat, res: Value, errorMsg: string, dec: Decoders)
    requires i < |entries| && !entries[i].key.Scalar?
    ensures !CovertYamlToJson(Mapping(entries), res, errorMsg, dec).0
    ensures CovertYamlToJson(Mapping(entries), res, errorMsg, dec).1 == res
  {
    NonScalarKeyFails(Mapping(entries), |entries|, dec, i);
  }
}
