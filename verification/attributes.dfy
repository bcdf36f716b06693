/**
  Reading optional attributes of the parsed command-line namespace: the
  `get_attribute` helper and the rules that choose the reader name.
  A namespace is a map from attribute names to values; `hasattr(args, n)` is `n in args`,
  and a namespace of `None` behaves as one without attributes.
 */
module Attributes {
  import opened Results
  import opened Text

  /**
    The Python values these rules look at. `PyInts` is a tuple, list or range of integers,
    `PyStrs` a tuple or list of strings; `FloatList` is a list of floats, held as the texts
    they are read from.
   */
  datatype PyValue =
    | PyNone
    | PyBool(b: bool)
    | PyInt(i: int)
    | PyStr(s: string)
    | PyInts(items: seq<int>)
    | PyStrs(strs: seq<string>)
    | FloatList(texts: seq<string>)

  type Namespace = map<string, PyValue>

  /** Python truthiness: `None`, `False`, zero and empty values are false. */
  predicate Truthy(v: PyValue) {
    match v
    case PyNone => false
    case PyBool(b) => b
    case PyInt(i) => i != 0
    case PyStr(s) => s != ""
    case PyInts(items) => items != []
    case PyStrs(strs) => strs != []
    case FloatList(texts) => texts != []
  }

  /**
    Python's `needle in v` for a string needle: a substring test on a string, an element
    test on a list (never true for a list of numbers), and `TypeError` for a value that is
    not a container.
   */
  function Contains(needle: string, v: PyValue): (r: Result<bool>)
    ensures r.Err? <==> v.PyNone? || v.PyBool? || v.PyInt?
    ensures r.Err? ==> r.error == TypeError
    ensures v.PyStr? ==> r == Ok(IsSubstring(needle, v.s))
    ensures v.PyStrs? ==> r == Ok(needle in v.strs)
    ensures v.PyInts? || v.FloatList? ==> r == Ok(false)
  {
    match v
    case PyStr(s) => Ok(IsSubstring(needle, s))
    case PyStrs(strs) => Ok(needle in strs)
    case PyInts(_) => Ok(false)
    case FloatList(_) => Ok(false)
    case _ => Err(TypeError)
  }

  /** In a list, only an element equal to the needle counts; in a string, any occurrence does. */
  lemma ContainsListVersusString(needle: string, s: string)
    requires IsSubstring(needle, s) && s != needle
    ensures Contains(needle, PyStr(s)) == Ok(true)
    ensures Contains(needle, PyStrs([s])) == Ok(false)
  {
  }

  /** Python's `int(v)`: a boolean is 0 or 1, text is parsed, anything else raises `TypeError`. */
  function IntOf(v: PyValue): (r: Result<int>)
    ensures v.PyInt? ==> r == Ok(v.i)
    ensures v.PyBool? ==> r == Ok(if v.b then 1 else 0)
    ensures v.PyStr? ==> r == ParseInt(v.s)
    ensures !(v.PyInt? || v.PyBool? || v.PyStr?) ==> r == Err(TypeError)
  {
    match v
    case PyInt(i) => Ok(i)
    case PyBool(b) => Ok(if b then 1 else 0)
    case PyStr(s) => ParseInt(s)
    case _ => Err(TypeError)
  }

  /** `int()` reads back the text of every integer, as it does the integer itself. */
  lemma IntOfShowInt(n: int)
    ensures IntOf(PyStr(ShowInt(n))) == IntOf(PyInt(n)) == Ok(n)
  {
    ParseShowInt(n);
  }

  /** The reader name used when none is given. */
  const DefaultReaderName: string := "Reader"

  /**
    `get_attribute(args, attr_name, def_value)` as written: when the attribute exists, the
    value kept is the result of `hasattr`, so the string branch that would split it is never taken.
   */
  function GetAttribute(args: Namespace, attrName: string, defValue: PyValue): (r: PyValue)
    ensures attrName !in args ==> r == defValue
    ensures attrName in args ==> r == PyBool(true)
  {
    if attrName in args then
      var attr := PyBool(attrName in args);
      match attr
      case PyStr(text) => FloatList(Split(text, ','))
      case _ => attr
    else
      defValue
  }

  /** As written, the stored value never reaches the caller: any two values give the same answer. */
  lemma GetAttributeIgnoresValue(args: Namespace, attrName: string, v1: PyValue, v2: PyValue, defValue: PyValue)
    ensures GetAttribute(args[attrName := v1], attrName, defValue) == GetAttribute(args[attrName := v2], attrName, defValue)
    ensures !GetAttribute(args[attrName := v1], attrName, defValue).PyStr?
  {
  }

  /**
    The evidently intended helper: a present attribute yields its value, and a string
    value is split on commas into the fields that are converted to floats.
   */
  function GetAttributeIntended(args: Namespace, attrName: string, defValue: PyValue): (r: PyValue)
    ensures attrName !in args ==> r == defValue
    ensures attrName in args && !args[attrName].PyStr? ==> r == args[attrName]
    ensures attrName in args && args[attrName].PyStr? ==>
              r.FloatList? && |r.texts| > 0 && Join(r.texts, ',') == args[attrName].s
  {
    if attrName in args then
      var attr := args[attrName];
      match attr
      case PyStr(text) => FloatList(Split(text, ','))
      case _ => attr
    else
      defValue
  }

  /**
    A comma-separated value such as `"123.68,116.78,103.94"` reaches the caller as its fields
    when read as intended, but as `True` as written.
   */
  lemma GetAttributeDiscrepancy(attrName: string, fields: seq<string>, defValue: PyValue)
    requires |fields| > 0 && forall i :: 0 <= i < |fields| ==> ',' !in fields[i]
    ensures GetAttribute(map[attrName := PyStr(Join(fields, ','))], attrName, defValue) == PyBool(true)
    ensures GetAttributeIntended(map[attrName := PyStr(Join(fields, ','))], attrName, defValue) == FloatList(fields)
  {
    SplitJoin(fields, ',');
  }

  /* ------------------------------------------------------------ reader name */

  /** `ImageReader`: the reader name is kept only when it is a non-empty string. */
  function ImageReaderName(readerName: PyValue): (r: string)
    ensures |r| > 0
    ensures readerName == PyStr(r) <==> readerName.PyStr? && readerName.s != ""
    ensures readerName != PyStr(r) ==> r == DefaultReaderName
  {
    if readerName.PyStr? && readerName.s != "" then readerName.s else DefaultReaderName
  }

  /** `reade_flg`: the namespace names a reader with a non-empty string. */
  predicate ReaderFlag(args: Namespace) {
    "reader_name" in args && args["reader_name"].PyStr? && args["reader_name"].s != ""
  }

  /** The reader name handed to the pipelines. */
  function PipelineReaderName(args: Namespace): (r: string)
    ensures |r| > 0
    ensures ReaderFlag(args) <==> "reader_name" in args && args["reader_name"] == PyStr(r)
    ensures !ReaderFlag(args) ==> r == DefaultReaderName
  {
    if ReaderFlag(args) then args["reader_name"].s else DefaultReaderName
  }

  /** The reader handed to the framework iterators: only a name the caller supplied, otherwise `None`. */
  function IteratorReader(args: Namespace): (r: Option<string>)
    ensures r.Some? <==> ReaderFlag(args)
    ensures r.Some? ==> r.value == PipelineReaderName(args)
  {
    if ReaderFlag(args) then Some(args["reader_name"].s) else None
  }

  /**
    Both reader-name rules agree: the name the assembly chooses passes through `ImageReader`
    unchanged, and it is what `ImageReader` would choose from the raw attribute.
   */
  lemma ReaderNameRulesAgree(args: Namespace)
    ensures ImageReaderName(PyStr(PipelineReaderName(args))) == PipelineReaderName(args)
    ensures PipelineReaderName(args) == ImageReaderName(if "reader_name" in args then args["reader_name"] else PyNone)
  {
  }
}
