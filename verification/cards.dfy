/** The metadata-card converter: unwrap the parsed metadata to a dictionary, flatten
    each wanted field to one line of text, and emit one row keyed by the fixed field
    list. The JSON decoder and Python's rendering of non-string values are parameters. */
module Cards {
  import opened Wrappers
  import opened Text

  /** A decoded JSON value. */
  datatype Json =
    | JNull
    | JBool(b: bool)
    | JInt(i: int)
    | JFloat(f: real)
    | JStr(s: string)
    | JList(items: seq<Json>)
    | JDict(entries: map<string, Json>)

  /** The two ways `load` fails: the decoder rejects the text, or the unwrapped value is
      not a dictionary. */
  datatype LoadError = DecodeError(reason: string) | TypeError(message: string)

  /** The decoder (`json.loads`): text to a value, or the decoder's complaint. */
  type Parser = string -> Result<Json, string>

  /** The Python type name of a decoded value, as the TypeError message spells it. Only a
      dictionary is named "dict", and no value has an empty name. */
  function TypeName(j: Json): (r: string)
    ensures r == "dict" <==> j.JDict?
    ensures |r| > 0
  {
    match j
    case JNull => "NoneType"
    case JBool(_) => "bool"
    case JInt(_) => "int"
    case JFloat(_) => "float"
    case JStr(_) => "str"
    case JList(_) => "list"
    case JDict(_) => "dict"
  }

  /** The message of the TypeError `load` raises: it starts with the file's path, names
      the value's type, and ends by saying a dictionary was expected. */
  function NotADict(path: string, j: Json): (r: string)
    ensures |r| == |path| + 11 + |TypeName(j)| + 15
    ensures r[..|path| + 11] == path + " parsed to "
    ensures r[|path| + 11..|path| + 11 + |TypeName(j)|] == TypeName(j)
    ensures r[|r| - 15..] == ", expected dict"
  {
    path + " parsed to " + TypeName(j) + ", expected dict"
  }

  /** One re-parse of a value that decoded to a string (`json.loads(obj)`); any other value
      is kept. */
  function Reparse(j: Json, parse: Parser): (r: Result<Json, string>)
    ensures !j.JStr? ==> r == Success(j)
    ensures j.JStr? ==> r == parse(j.s)
  {
    if j.JStr? then parse(j.s) else Success(j)
  }

  /** A non-empty list gives its first element; any other value is kept. */
  function FirstOfList(j: Json): (r: Json)
    ensures j.JList? && |j.items| > 0 ==> r == j.items[0]
    ensures !(j.JList? && |j.items| > 0) ==> r == j
  {
    if j.JList? && |j.items| > 0 then j.items[0] else j
  }

  /** `load(path)` on the file text `text`: decode the stripped text; re-decode once if it
      gave a string; take the first element of a non-empty list; then accept only a
      dictionary. */
  function Load(path: string, text: string, parse: Parser): (r: Result<map<string, Json>, LoadError>)
    ensures parse(Strip(text)).Failure? ==> r == Failure(DecodeError(parse(Strip(text)).error))
    ensures r.Success? ==> parse(Strip(text)).Success?
    ensures r.Failure? && r.error.TypeError? ==>
              exists j :: r.error.message == NotADict(path, j) && !j.JDict?
    ensures r.Failure? && r.error.DecodeError? ==>
              || parse(Strip(text)).Failure?
              || (parse(Strip(text)).value.JStr? && parse(parse(Strip(text)).value.s).Failure?)
  {
    var first := parse(Strip(text));
    if first.Failure? then Failure(DecodeError(first.error))
    else
      var second := Reparse(first.value, parse);
      if second.Failure? then Failure(DecodeError(second.error))
      else
        var obj := FirstOfList(second.value);
        if obj.JDict? then Success(obj.entries)
        else Failure(TypeError(NotADict(path, obj)))
  }

  /** Once both decodes succeed, the outcome is decided by the unwrapped value alone: a
      dictionary is returned, and any other value, whatever its type, is a TypeError
      naming that value. */
  lemma LoadUnwrapped(path: string, text: string, parse: Parser)
    requires parse(Strip(text)).Success?
    requires Reparse(parse(Strip(text)).value, parse).Success?
    ensures var obj := FirstOfList(Reparse(parse(Strip(text)).value, parse).value);
            Load(path, text, parse)
            == if obj.JDict? then Success(obj.entries) else Failure(TypeError(NotADict(path, obj)))
  {
  }

  /** When the first decode gives a string that does not decode, the second decoder's
      complaint is reported. */
  lemma LoadSecondDecodeFails(path: string, text: string, parse: Parser, inner: string)
    requires parse(Strip(text)) == Success(JStr(inner))
    requires parse(inner).Failure?
    ensures Load(path, text, parse) == Failure(DecodeError(parse(inner).error))
  {
  }

  /** A dictionary is returned as it is. */
  lemma LoadDict(path: string, text: string, parse: Parser, m: map<string, Json>)
    requires parse(Strip(text)) == Success(JDict(m))
    ensures Load(path, text, parse) == Success(m)
  {
  }

  /** A top-level string is decoded a second time, and a dictionary inside it is returned. */
  lemma LoadStringWrapped(path: string, text: string, parse: Parser, inner: string, m: map<string, Json>)
    requires parse(Strip(text)) == Success(JStr(inner))
    requires parse(inner) == Success(JDict(m))
    ensures Load(path, text, parse) == Success(m)
  {
  }

  /** A non-empty list yields its first element, whatever follows it. */
  lemma LoadFirstOfList(path: string, text: string, parse: Parser, m: map<string, Json>, rest: seq<Json>)
    requires parse(Strip(text)) == Success(JList([JDict(m)] + rest))
    ensures Load(path, text, parse) == Success(m)
  {
  }

  /** An empty list is rejected with a TypeError naming `list`. */
  lemma LoadEmptyList(path: string, text: string, parse: Parser)
    requires parse(Strip(text)) == Success(JList([]))
    ensures Load(path, text, parse) == Failure(TypeError(NotADict(path, JList([]))))
  {
  }

  /** Only one level of string wrapping is undone: a string that decodes to another string
      is rejected with a TypeError naming `str`. */
  lemma LoadDoublyWrapped(path: string, text: string, parse: Parser, inner: string, innermost: string)
    requires parse(Strip(text)) == Success(JStr(inner))
    requires parse(inner) == Success(JStr(innermost))
    ensures Load(path, text, parse) == Failure(TypeError(NotADict(path, JStr(innermost))))
  {
  }

  /** Only one level of list wrapping is undone: a list whose first element is a list is
      rejected with a TypeError naming `list`. */
  lemma LoadNestedList(path: string, text: string, parse: Parser, items: seq<Json>, rest: seq<Json>)
    requires parse(Strip(text)) == Success(JList([JList(items)] + rest))
    ensures Load(path, text, parse) == Failure(TypeError(NotADict(path, JList(items))))
  {
  }

  /** Every value `load` accepts is a dictionary the cascade reached: the decoded value, its
      re-decoding, or the first element of either. */
  lemma LoadSuccessOrigin(path: string, text: string, parse: Parser)
    requires Load(path, text, parse).Success?
    ensures var m := Load(path, text, parse).value;
            var j := parse(Strip(text)).value;
            || j == JDict(m)
            || (j.JList? && |j.items| > 0 && j.items[0] == JDict(m))
            || (j.JStr? && parse(j.s).Success? &&
                (parse(j.s).value == JDict(m)
                 || (parse(j.s).value.JList? && |parse(j.s).value.items| > 0
                     && parse(j.s).value.items[0] == JDict(m))))
  {
  }

  /** `flat(x)`: None gives the empty text; otherwise every carriage return and every line
      feed becomes one space. */
  function Flat(x: Option<string>): (r: string)
    ensures x.None? ==> r == ""
    ensures x.Some? ==> |r| == |x.value|
    ensures forall i :: 0 <= i < |r| ==> r[i] != '\r' && r[i] != '\n'
    ensures x.Some? ==> forall i :: 0 <= i < |r| && x.value[i] != '\r' && x.value[i] != '\n' ==> r[i] == x.value[i]
    ensures x.Some? ==> forall i :: 0 <= i < |r| && (x.value[i] == '\r' || x.value[i] == '\n') ==> r[i] == ' '
  {
    match x
    case None => ""
    case Some(s) => ReplaceChar(ReplaceChar(s, '\r', ' '), '\n', ' ')
  }

  /** Flattening a flattened text changes nothing. */
  lemma FlatIdempotent(s: string)
    ensures Flat(Some(Flat(Some(s)))) == Flat(Some(s))
  {
    var t := Flat(Some(s));
    assert forall i :: 0 <= i < |t| ==> Flat(Some(t))[i] == t[i];
  }

  /** A text with no line break is copied as it is. */
  lemma FlatKeepsOneLine(s: string)
    requires forall i :: 0 <= i < |s| ==> s[i] != '\r' && s[i] != '\n'
    ensures Flat(Some(s)) == s
  {
    assert forall i :: 0 <= i < |s| ==> Flat(Some(s))[i] == s[i];
  }

  /** The CSV columns, in order. */
  const FIELDS: seq<string> := ["title", "id", "subtitle", "description", "isPrivate"]

  /** What `flat` receives for a metadata value: JSON null is Python's None; a string is
      itself; a boolean and an integer render as Python prints them; any other value is
      rendered by `show` (Python's `str`). */
  function CellText(j: Json, show: Json -> string): (r: Option<string>)
    ensures r.None? <==> j.JNull?
    ensures j.JStr? ==> r == Some(j.s)
    ensures j.JBool? ==> r == Some(if j.b then "True" else "False")
    ensures j.JInt? ==> r == Some(IntToString(j.i))
  {
    match j
    case JNull => None
    case JBool(b) => Some(if b then "True" else "False")
    case JInt(n) => Some(IntToString(n))
    case JStr(s) => Some(s)
    case _ => Some(show(j))
  }

  /** The output row: one flattened cell per field, in field order; a field the metadata
      lacks gives the empty text. */
  function Row(meta: map<string, Json>, show: Json -> string): (r: seq<string>)
    ensures |r| == |FIELDS|
    ensures forall i :: 0 <= i < |r| && FIELDS[i] !in meta ==> r[i] == ""
    ensures forall i :: 0 <= i < |r| && FIELDS[i] in meta ==> r[i] == Flat(CellText(meta[FIELDS[i]], show))
    ensures forall i, k :: 0 <= i < |r| && 0 <= k < |r[i]| ==> r[i][k] != '\r' && r[i][k] != '\n'
  {
    seq(|FIELDS|, i requires 0 <= i < |FIELDS| =>
      if FIELDS[i] in meta then Flat(CellText(meta[FIELDS[i]], show)) else Flat(Some("")))
  }

  /** A one-line string title is copied into the first cell unchanged. */
  lemma RowKeepsTitle(meta: map<string, Json>, show: Json -> string, title: string)
    requires "title" in meta && meta["title"] == JStr(title)
    requires forall i :: 0 <= i < |title| ==> title[i] != '\r' && title[i] != '\n'
    ensures Row(meta, show)[0] == title
  {
    FlatKeepsOneLine(title);
  }

  /** A boolean `isPrivate` lands in the last cell as Python prints it, "True" or "False". */
  lemma RowPrivateFlag(meta: map<string, Json>, show: Json -> string, b: bool)
    requires "isPrivate" in meta && meta["isPrivate"] == JBool(b)
    ensures Row(meta, show)[4] == if b then "True" else "False"
  {
    FlatKeepsOneLine(if b then "True" else "False");
  }
}
