/**
 * `TursoHTTPCursor`: a DB-API style cursor that sends each statement to a
 * libSQL server over its HTTP pipeline endpoint (the Hrana protocol). It
 * encodes the statement's parameters as Hrana values, builds the endpoint
 * URL, and decodes the cells of the first result into Python values, which
 * `fetchone` and `fetchall` then hand out from a buffer.
 *
 * The HTTP exchange is a parameter: `Execute` is given the server's reply
 * (or the transport failure) and returns the request it would have sent.
 * The library routines the codec calls (base64 from section 4 of RFC 4648,
 * and `float()` on a string) are parameters too, bundled in `Codecs`.
 */
module TursoHttp {
  import opened Wrappers
  import opened Text

  // ---------------------------------------------------------------- values

  /** A JSON scalar under a `value` key; JSON keeps integers and floats apart. */
  datatype Json = JStr(s: string) | JInt(i: int) | JFloat(r: real)

  /**
   * A Hrana value object: its `type` and its `value` and `base64` keys when
   * present. A missing `type` is represented by the empty string, which no
   * branch of the decoder names.
   */
  datatype Wire = Wire(typ: string, value: Option<Json>, base64: Option<string>)

  /** The Python values passed as statement parameters. */
  datatype Param =
    | NoneParam
    | BoolParam(b: bool)
    | IntParam(i: int)
    | FloatParam(r: real)
    | StrParam(s: string)
    | DateTimeParam(text: string)  // a `datetime`, by its `str()`
    | BytesParam(bytes: seq<bv8>)
    | OtherParam(text: string)     // any other object, by its `str()`

  /** The Python values a decoded cell holds. */
  datatype Val = NoneVal | IntVal(i: int) | FloatVal(r: real) | StrVal(s: string) | BytesVal(bytes: seq<bv8>)

  /** The library routines the codec relies on. */
  datatype Codecs = Codecs(b64encode: seq<bv8> -> string,
                           b64decode: string -> Option<seq<bv8>>,
                           parseFloat: string -> Option<real>)

  /** What RFC 4648 promises of the base64 pair: decoding undoes encoding. */
  ghost predicate Base64RoundTrips(c: Codecs)
  {
    forall b :: c.b64decode(c.b64encode(b)) == Some(b)
  }

  // ---------------------------------------------------------------- encoding

  /**
   * One argument of the `execute` request. The `isinstance` tests run in
   * order, and `bool` is a subclass of `int`: a bool is sent as an integer
   * whose text is `True` or `False`.
   */
  function EncodeParam(p: Param, c: Codecs): (w: Wire)
    ensures w.typ == "null" <==> p.NoneParam?
    ensures w.typ == "integer" <==> p.BoolParam? || p.IntParam?
    ensures w.typ == "blob" <==> p.BytesParam?
    ensures w.typ == "blob" ==> w.value.None? && w.base64.Some?
    ensures w.typ != "blob" ==> w.base64.None?
  {
    match p
    case NoneParam => Wire("null", None, None)
    case BoolParam(b) => Wire("integer", Some(JStr(if b then "True" else "False")), None)
    case IntParam(i) => Wire("integer", Some(JStr(IntToDecimal(i))), None)
    case FloatParam(r) => Wire("float", Some(JFloat(r)), None)
    case StrParam(s) => Wire("text", Some(JStr(s)), None)
    case DateTimeParam(text) => Wire("text", Some(JStr(text)), None)
    case BytesParam(bytes) => Wire("blob", None, Some(c.b64encode(bytes)))
    case OtherParam(text) => Wire("text", Some(JStr(text)), None)
  }

  /** The `args` list of the request, one entry per parameter, in order. */
  method EncodeArgs(params: seq<Param>, c: Codecs) returns (args: seq<Wire>)
    ensures |args| == |params|
    ensures forall i :: 0 <= i < |params| ==> args[i] == EncodeParam(params[i], c)
  {
    args := [];
    for k := 0 to |params|
      invariant |args| == k
      invariant forall i :: 0 <= i < k ==> args[i] == EncodeParam(params[i], c)
    {
      args := args + [EncodeParam(params[k], c)];
    }
  }

  // ---------------------------------------------------------------- decoding

  /** `int(val)`: a JSON float is truncated toward zero, a string parsed. */
  function PyInt(j: Json): Option<int>
  {
    match j
    case JStr(s) => ParseInt(s)
    case JInt(i) => Some(i)
    case JFloat(r) => Some(if r >= 0.0 then r.Floor else -((-r).Floor))
  }

  /** `float(val)`. */
  function PyFloat(j: Json, c: Codecs): Option<real>
  {
    match j
    case JStr(s) => c.parseFloat(s)
    case JInt(i) => Some(i as real)
    case JFloat(r) => Some(r)
  }

  /** `base64.b64decode(val)`: only text can be decoded. */
  function PyB64Decode(val: Option<Json>, c: Codecs): Result<Val, string>
  {
    match val
    case Some(JStr(s)) =>
      (match c.b64decode(s)
       case Some(bytes) => Ok(BytesVal(bytes))
       case None => Err("binascii.Error"))
    case _ => Err("TypeError")
  }

  /** A cell the decoder passes through unchanged, as `json` delivered it. */
  function AsIs(val: Option<Json>): Val
  {
    match val
    case None => NoneVal
    case Some(JStr(s)) => StrVal(s)
    case Some(JInt(i)) => IntVal(i)
    case Some(JFloat(r)) => FloatVal(r)
  }

  /** The integer, float and pass-through branches, which both decoders share. */
  function DecodeScalar(w: Wire, c: Codecs): Result<Val, string>
  {
    if w.typ == "integer" then
      match w.value
      case None => Err("TypeError")
      case Some(j) => (match PyInt(j) case Some(i) => Ok(IntVal(i)) case None => Err("ValueError"))
    else if w.typ == "float" then
      match w.value
      case None => Err("TypeError")
      case Some(j) => (match PyFloat(j, c) case Some(r) => Ok(FloatVal(r)) case None => Err("ValueError"))
    else Ok(AsIs(w.value))
  }

  /**
   * The cell decoder as written: a blob is decoded from the `value` key,
   * while Hrana (and the encoder above) carry a blob's bytes under `base64`.
   */
  function DecodeCellAsWritten(w: Wire, c: Codecs): (r: Result<Val, string>)
    ensures w.typ == "blob" && w.value.None? ==> r.Err?
    ensures w.typ != "blob" ==> r == DecodeScalar(w, c)
  {
    if w.typ == "blob" then PyB64Decode(w.value, c) else DecodeScalar(w, c)
  }

  /** The cell decoder reading a blob from its `base64` key. */
  function DecodeCell(w: Wire, c: Codecs): (r: Result<Val, string>)
    ensures w.typ == "blob" ==> (r.Ok? <==> w.base64.Some? && c.b64decode(w.base64.value).Some?)
    ensures w.typ == "blob" && r.Ok? ==> r.value == BytesVal(c.b64decode(w.base64.value).value)
    ensures w.typ != "blob" ==> r == DecodeCellAsWritten(w, c)
  {
    if w.typ == "blob" then
      PyB64Decode(if w.base64.Some? then Some(JStr(w.base64.value)) else None, c)
    else DecodeScalar(w, c)
  }

  /** The Python value a parameter stands for once it has been stored and read back. */
  function StoredValue(p: Param): Val
  {
    match p
    case NoneParam => NoneVal
    case BoolParam(b) => IntVal(if b then 1 else 0)
    case IntParam(i) => IntVal(i)
    case FloatParam(r) => FloatVal(r)
    case StrParam(s) => StrVal(s)
    case DateTimeParam(text) => StrVal(text)
    case BytesParam(bytes) => BytesVal(bytes)
    case OtherParam(text) => StrVal(text)
  }

  /**
   * A parameter encoded for the request decodes, as a cell of the same
   * shape, to the value it stands for: an int goes out as its decimal text
   * and `int()` reads it back; a datetime or other object comes back as the
   * text it was sent as. The one exception is a bool, covered below.
   */
  lemma {:induction false} EncodeThenDecode(p: Param, c: Codecs)
    requires Base64RoundTrips(c)
    requires !p.BoolParam?
    ensures DecodeCell(EncodeParam(p, c), c) == Ok(StoredValue(p))
  {
    match p
    case IntParam(i) => ParseIntOfDecimal(i);
    case BytesParam(bytes) => assert c.b64decode(c.b64encode(bytes)) == Some(bytes);
    case _ =>
  }

  lemma ParseBoolTextFails(b: bool)
    ensures ParseInt(if b then "True" else "False") == None
  {
    var s: string := if b then "True" else "False";
    assert TrimStart(s) == s && TrimEnd(s) == s;
    assert !IsDigit(s[0]);
  }

  /** A bool goes out as `True`/`False`, which the `integer` branch cannot parse. */
  lemma BoolDoesNotRoundTrip(b: bool, c: Codecs)
    ensures DecodeCell(EncodeParam(BoolParam(b), c), c).Err?
  {
    ParseBoolTextFails(b);
  }

  /** The decoder as written fails on every blob the encoder produces. */
  lemma BlobFailsAsWritten(bytes: seq<bv8>, c: Codecs)
    ensures DecodeCellAsWritten(EncodeParam(BytesParam(bytes), c), c).Err?
    ensures Base64RoundTrips(c) ==> DecodeCell(EncodeParam(BytesParam(bytes), c), c) == Ok(BytesVal(bytes))
  {
  }

  /** Every cell of every row, decoded; the first failure ends the loop. */
  method DecodeRows(rows: seq<seq<Wire>>, c: Codecs) returns (r: Result<seq<seq<Val>>, string>)
    ensures r.Ok? <==> forall i, j :: 0 <= i < |rows| && 0 <= j < |rows[i]| ==> DecodeCell(rows[i][j], c).Ok?
    ensures r.Ok? ==> |r.value| == |rows|
    ensures r.Ok? ==> forall i :: 0 <= i < |rows| ==> |r.value[i]| == |rows[i]|
    ensures r.Ok? ==> forall i, j :: 0 <= i < |rows| && 0 <= j < |rows[i]| ==>
                        r.value[i][j] == DecodeCell(rows[i][j], c).value
  {
    var parsed: seq<seq<Val>> := [];
    for i := 0 to |rows|
      invariant |parsed| == i
      invariant forall k, j :: 0 <= k < i && 0 <= j < |rows[k]| ==> DecodeCell(rows[k][j], c).Ok?
      invariant forall k :: 0 <= k < i ==> |parsed[k]| == |rows[k]|
      invariant forall k, j :: 0 <= k < i && 0 <= j < |rows[k]| ==> parsed[k][j] == DecodeCell(rows[k][j], c).value
    {
      var row := rows[i];
      var parsedRow: seq<Val> := [];
      for j := 0 to |row|
        invariant |parsedRow| == j
        invariant forall m :: 0 <= m < j ==> DecodeCell(row[m], c).Ok? && parsedRow[m] == DecodeCell(row[m], c).value
      {
        var cell := DecodeCell(row[j], c);
        if cell.Err? {
          return Err(cell.error);
        }
        parsedRow := parsedRow + [cell.value];
      }
      parsed := parsed + [parsedRow];
    }
    return Ok(parsed);
  }

  /** `[c["name"] for c in cols]`: fails when a column has no name. */
  function ColumnNames(cols: seq<Option<string>>): (r: Option<seq<string>>)
    ensures r.Some? <==> forall i :: 0 <= i < |cols| ==> cols[i].Some?
    ensures r.Some? ==> |r.value| == |cols| && forall i :: 0 <= i < |cols| ==> r.value[i] == cols[i].value
  {
    if cols == [] then Some([])
    else
      match ColumnNames(cols[1..])
      case Some(rest) => if cols[0].Some? then Some([cols[0].value] + rest) else None
      case None => None
  }

  // ---------------------------------------------------------------- the endpoint URL

  const PipelinePath: string := "/v2/pipeline"
  const LibsqlScheme: string := "libsql://"
  const HttpsScheme: string := "https://"

  predicate StartsWith(s: string, w: string)
  {
    |w| <= |s| && s[..|w|] == w
  }

  predicate EndsWith(s: string, w: string)
  {
    |w| <= |s| && s[|s| - |w|..] == w
  }

  /** `w` occurs in `s` starting at index `i`. */
  predicate OccursAt(s: string, w: string, i: int)
  {
    0 <= i && i + |w| <= |s| && s[i..i + |w|] == w
  }

  /** `w` occurs somewhere in `s`. */
  predicate Occurs(s: string, w: string)
  {
    exists i :: 0 <= i <= |s| && OccursAt(s, w, i)
  }

  /** `s.replace(pat, rep)`: occurrences replaced left to right, never overlapping. */
  function Replace(s: string, pat: string, rep: string): string
    requires pat != []
    decreases |s|
  {
    if |s| < |pat| then s
    else if s[..|pat|] == pat then rep + Replace(s[|pat|..], pat, rep)
    else [s[0]] + Replace(s[1..], pat, rep)
  }

  /** The URL with `/v2/pipeline` appended, unless it ends so already. */
  function WithPipelinePath(url: string): string
  {
    if EndsWith(url, PipelinePath) then url
    else if EndsWith(url, "/") then url + "v2/pipeline"
    else url + PipelinePath
  }

  /** The URL `execute` posts to. */
  function PipelineUrl(url: string): string
  {
    Replace(WithPipelinePath(url), LibsqlScheme, HttpsScheme)
  }

  lemma {:induction false} ReplaceWithoutOccurrence(s: string, pat: string, rep: string)
    requires pat != [] && !Occurs(s, pat)
    ensures Replace(s, pat, rep) == s
    decreases |s|
  {
    if |s| >= |pat| {
      assert !OccursAt(s, pat, 0);
      assert !Occurs(s[1..], pat) by {
        forall i | OccursAt(s[1..], pat, i) ensures false {
          assert s[1..][i..i + |pat|] == s[i + 1..i + 1 + |pat|];
          assert OccursAt(s, pat, i + 1);
        }
      }
      ReplaceWithoutOccurrence(s[1..], pat, rep);
      assert s == [s[0]] + s[1..];
    }
  }

  /**
   * A prefix of a replaced string that avoids the first character of the
   * replacement was copied from the original.
   */
  lemma {:induction false} ReplacedPrefix(t: string, q: string, pat: string, rep: string)
    requires pat != [] && rep != []
    requires forall i :: 0 <= i < |q| ==> q[i] != rep[0]
    ensures StartsWith(Replace(t, pat, rep), q) ==> StartsWith(t, q)
    decreases |t|
  {
    var r := Replace(t, pat, rep);
    if q != [] && |t| >= |pat| && t[..|pat|] == pat {
      assert r[0] == rep[0];
    } else if q != [] && |t| >= |pat| {
      assert r == [t[0]] + Replace(t[1..], pat, rep);
      if StartsWith(r, q) {
        assert StartsWith(Replace(t[1..], pat, rep), q[1..]) by {
          assert r[1..][..|q| - 1] == r[..|q|][1..];
        }
        ReplacedPrefix(t[1..], q[1..], pat, rep);
        assert t[..|q|] == [t[0]] + t[1..][..|q| - 1];
      }
    }
  }

  /**
   * After the replacement the pattern is gone, when the replacement cannot
   * take part in a new occurrence: it does not contain the pattern's first
   * character, and the pattern does not contain the replacement's.
   */
  lemma {:induction false} NoOccurrenceAfterReplace(s: string, pat: string, rep: string)
    requires pat != [] && rep != []
    requires forall i :: 0 <= i < |rep| ==> rep[i] != pat[0]
    requires forall i :: 1 <= i < |pat| ==> pat[i] != rep[0]
    ensures !Occurs(Replace(s, pat, rep), pat)
    decreases |s|
  {
    var r := Replace(s, pat, rep);
    if |s| < |pat| {
      assert forall i :: !OccursAt(r, pat, i);
    } else if s[..|pat|] == pat {
      var rest := Replace(s[|pat|..], pat, rep);
      assert r == rep + rest;
      NoOccurrenceAfterReplace(s[|pat|..], pat, rep);
      forall i | OccursAt(r, pat, i) && i >= |rep| ensures false {
        assert r[i..i + |pat|] == rest[i - |rep|..i - |rep| + |pat|];
        assert OccursAt(rest, pat, i - |rep|);
      }
    } else {
      var rest := Replace(s[1..], pat, rep);
      assert r == [s[0]] + rest;
      NoOccurrenceAfterReplace(s[1..], pat, rep);
      forall i | OccursAt(r, pat, i) ensures false {
        if i == 0 {
          assert StartsWith(rest, pat[1..]) by {
            assert rest[..|pat| - 1] == r[..|pat|][1..];
          }
          ReplacedPrefix(s[1..], pat[1..], pat, rep);
        } else {
          assert r[i..i + |pat|] == rest[i - 1..i - 1 + |pat|];
          assert OccursAt(rest, pat, i - 1);
        }
      }
    }
  }

  /** Text with no `l` where the scheme could start does not hold the scheme. */
  lemma NoSchemeIn(s: string)
    requires forall i :: 0 <= i <= |s| - |LibsqlScheme| ==> s[i] != 'l'
    ensures !Occurs(s, LibsqlScheme)
  {
    forall i | 0 <= i <= |s| - |LibsqlScheme| ensures !OccursAt(s, LibsqlScheme, i) {
      assert s[i..i + |LibsqlScheme|][0] == s[i];
    }
  }

  /** The pipeline path, and the path without its slash, hold no scheme to replace. */
  lemma PathIsLeftAlone()
    ensures Replace(PipelinePath, LibsqlScheme, HttpsScheme) == PipelinePath
    ensures Replace(PipelinePath[1..], LibsqlScheme, HttpsScheme) == PipelinePath[1..]
  {
    NoSchemeIn(PipelinePath);
    ReplaceWithoutOccurrence(PipelinePath, LibsqlScheme, HttpsScheme);
    NoSchemeIn(PipelinePath[1..]);
    ReplaceWithoutOccurrence(PipelinePath[1..], LibsqlScheme, HttpsScheme);
  }

  /**
   * A string that starts with the scheme and ends with the path, and is too
   * short for them to lie apart, shares the scheme's last '/' with the path.
   */
  lemma SchemeMeetsPath(s: string)
    requires StartsWith(s, LibsqlScheme) && EndsWith(s, PipelinePath) && |s| < 21
    ensures s == LibsqlScheme + PipelinePath[1..]
  {
    assert forall k :: 0 <= k < 9 ==> s[k] == LibsqlScheme[k] != 'v';
    assert s[|s| - 11] == PipelinePath[1] == 'v';
    assert s[9..] == s[|s| - 12..][1..];
  }

  /** The scheme replacement keeps a trailing `/v2/pipeline`. */
  lemma {:induction false} ReplaceKeepsPipelinePath(s: string)
    requires EndsWith(s, PipelinePath)
    ensures EndsWith(Replace(s, LibsqlScheme, HttpsScheme), PipelinePath)
    decreases |s|
  {
    var r := Replace(s, LibsqlScheme, HttpsScheme);
    if s[..9] == LibsqlScheme {
      var tail := s[9..];
      assert r == HttpsScheme + Replace(tail, LibsqlScheme, HttpsScheme);
      if |tail| >= 12 {
        assert tail[|tail| - 12..] == s[|s| - 12..];
        ReplaceKeepsPipelinePath(tail);
      } else {
        SchemeMeetsPath(s);
        assert tail == PipelinePath[1..];
        PathIsLeftAlone();
        assert r == HttpsScheme + PipelinePath[1..];
      }
    } else if |s| > 12 {
      assert r == [s[0]] + Replace(s[1..], LibsqlScheme, HttpsScheme);
      assert s[1..][|s| - 13..] == s[|s| - 12..];
      ReplaceKeepsPipelinePath(s[1..]);
    } else {
      assert s == PipelinePath;
      PathIsLeftAlone();
    }
  }

  /** The endpoint always ends with the pipeline path. */
  lemma PipelineUrlEndsWithPath(url: string)
    ensures EndsWith(PipelineUrl(url), PipelinePath)
  {
    var w := WithPipelinePath(url);
    if !EndsWith(url, PipelinePath) && EndsWith(url, "/") {
      assert w[|w| - 12..] == PipelinePath;
    } else if !EndsWith(url, PipelinePath) {
      assert w[|w| - 12..] == PipelinePath;
    }
    ReplaceKeepsPipelinePath(w);
  }

  /** The endpoint never names the `libsql://` scheme. */
  lemma PipelineUrlHasNoLibsqlScheme(url: string)
    ensures !Occurs(PipelineUrl(url), LibsqlScheme)
  {
    NoOccurrenceAfterReplace(WithPipelinePath(url), LibsqlScheme, HttpsScheme);
  }

  /** Normalising an endpoint URL again changes nothing. */
  lemma PipelineUrlIdempotent(url: string)
    ensures PipelineUrl(PipelineUrl(url)) == PipelineUrl(url)
  {
    var p := PipelineUrl(url);
    PipelineUrlEndsWithPath(url);
    PipelineUrlHasNoLibsqlScheme(url);
    ReplaceWithoutOccurrence(p, LibsqlScheme, HttpsScheme);
  }

  // ---------------------------------------------------------------- the cursor

  /** `TursoHTTPConnection`; its `row_factory` stays unset in this code base. */
  datatype Connection = Connection(url: string, token: string, rowFactory: bool)

  /** One entry of the reply's `results`; absent keys are given their defaults. */
  datatype StmtResult = StmtResult(typ: string, cols: seq<Option<string>>, rows: seq<seq<Wire>>)

  /** What `requests.post(...).json()` yields, or the exception it raised. */
  datatype Reply = TransportError(message: string) | Reply(results: seq<StmtResult>)

  /** The parts of the posted pipeline request that depend on the call. */
  datatype Request = Request(url: string, sql: string, args: seq<Wire>)

  /** A fetched row: a tuple, or a dictionary when a row factory is set. */
  datatype Fetched = TupleRow(values: seq<Val>) | DictRow(fields: map<string, Val>)

  /** How many (name, value) pairs `zip(columns, row)` yields: the shorter list decides. */
  function Paired(columns: seq<string>, row: seq<Val>): nat
  {
    if |columns| < |row| then |columns| else |row|
  }

  /** One pair in front of the rest: a later pair already holding the name wins. */
  function ZipCons(name: string, value: Val, m: map<string, Val>): map<string, Val>
  {
    if name in m then m else m[name := value]
  }

  lemma ZipConsKeys(columns: seq<string>, row: seq<Val>, m: map<string, Val>)
    requires columns != [] && row != []
    requires forall k :: k in m <==> k in columns[1..][..Paired(columns[1..], row[1..])]
    ensures forall k :: k in ZipCons(columns[0], row[0], m) <==> k in columns[..Paired(columns, row)]
  {
    var n := Paired(columns, row);
    assert columns[1..][..Paired(columns[1..], row[1..])] == columns[1..n];
    assert columns[..n] == [columns[0]] + columns[1..n];
  }

  lemma ZipConsValues(columns: seq<string>, row: seq<Val>, m: map<string, Val>)
    requires columns != [] && row != []
    requires forall k :: k in m <==> k in columns[1..][..Paired(columns[1..], row[1..])]
    requires forall i :: 0 <= i < Paired(columns[1..], row[1..]) && columns[1..][i] !in columns[1..][i + 1..Paired(columns[1..], row[1..])] ==>
               columns[1..][i] in m && m[columns[1..][i]] == row[1..][i]
    ensures forall i :: 0 <= i < Paired(columns, row) && columns[i] !in columns[i + 1..Paired(columns, row)] ==>
              columns[i] in ZipCons(columns[0], row[0], m) && ZipCons(columns[0], row[0], m)[columns[i]] == row[i]
  {
    var n := Paired(columns, row);
    var r := ZipCons(columns[0], row[0], m);
    assert columns[1..][..n - 1] == columns[1..n];
    forall i | 0 <= i < n && columns[i] !in columns[i + 1..n] ensures columns[i] in r && r[columns[i]] == row[i] {
      if i == 0 {
        assert columns[0] !in m;
      } else {
        assert columns[1..][i - 1] == columns[i] && columns[1..][i..n - 1] == columns[i + 1..n];
        assert row[1..][i - 1] == row[i];
      }
    }
  }

  /**
   * `dict(zip(columns, row))`: a key for exactly the names that meet a
   * value, and for a name paired more than once the value of its last pair.
   */
  function Zipped(columns: seq<string>, row: seq<Val>): (m: map<string, Val>)
    ensures forall k :: k in m <==> k in columns[..Paired(columns, row)]
    ensures forall i :: 0 <= i < Paired(columns, row) && columns[i] !in columns[i + 1..Paired(columns, row)] ==>
              columns[i] in m && m[columns[i]] == row[i]
  {
    if columns == [] || row == [] then map[]
    else
      var m := Zipped(columns[1..], row[1..]);
      ZipConsKeys(columns, row, m);
      ZipConsValues(columns, row, m);
      ZipCons(columns[0], row[0], m)
  }

  function Shaped(rowFactory: bool, columns: seq<string>, row: seq<Val>): Fetched
  {
    if rowFactory then DictRow(Zipped(columns, row)) else TupleRow(row)
  }

  class TursoHttpCursor {
    const connection: Connection
    var lastRowId: Option<int>
    var rowCount: int
    var rows: seq<seq<Val>>
    var columns: seq<string>
    var rowIndex: nat

    ghost predicate Valid()
      reads this
    {
      rowIndex <= |rows|
    }

    constructor(connection: Connection)
      ensures Valid()
      ensures this.connection == connection
      ensures lastRowId == None && rowCount == -1 && rows == [] && columns == [] && rowIndex == 0
    {
      this.connection := connection;
      lastRowId := None;
      rowCount := -1;
      rows := [];
      columns := [];
      rowIndex := 0;
    }

    /**
     * `execute(sql, parameters)`, given the server's reply. A transport
     * failure is raised before any state changes. Otherwise the buffer is
     * reset; when the first result is `ok` its column names and rows are
     * decoded and `rowcount` is set to the number of rows. A missing column
     * name or an undecodable cell is raised with the buffer left empty and
     * `rowcount` as it was. `ok` is false exactly when `execute` raises.
     */
    method Execute(sql: string, params: seq<Param>, c: Codecs, reply: Reply) returns (request: Request, ok: bool)
      requires Valid()
      modifies this
      ensures Valid()
      ensures request.url == PipelineUrl(connection.url) && request.sql == sql
      ensures |request.args| == |params|
      ensures forall i :: 0 <= i < |params| ==> request.args[i] == EncodeParam(params[i], c)
      ensures reply.TransportError? ==>
                !ok && lastRowId == old(lastRowId) && rowCount == old(rowCount) &&
                rows == old(rows) && columns == old(columns) && rowIndex == old(rowIndex)
      ensures reply.Reply? ==> lastRowId == None && rowIndex == 0
      ensures reply.Reply? && (reply.results == [] || reply.results[0].typ != "ok") ==>
                ok && rows == [] && columns == [] && rowCount == old(rowCount)
      ensures reply.Reply? && reply.results != [] && reply.results[0].typ == "ok" ==>
                var res := reply.results[0];
                && (ColumnNames(res.cols).None? ==> !ok && columns == [] && rows == [] && rowCount == old(rowCount))
                && (ColumnNames(res.cols).Some? ==> columns == ColumnNames(res.cols).value)
                && (ColumnNames(res.cols).Some? && !ok ==> rows == [] && rowCount == old(rowCount))
                && (ColumnNames(res.cols).Some? ==>
                      (ok <==> forall i, j :: 0 <= i < |res.rows| && 0 <= j < |res.rows[i]| ==>
                                 DecodeCell(res.rows[i][j], c).Ok?))
                && (ok ==> |rows| == |res.rows| && rowCount == |rows|)
                && (ok ==> forall i :: 0 <= i < |res.rows| ==> |rows[i]| == |res.rows[i]|)
                && (ok ==> forall i, j :: 0 <= i < |res.rows| && 0 <= j < |res.rows[i]| ==>
                             rows[i][j] == DecodeCell(res.rows[i][j], c).value)
    {
      var args := EncodeArgs(params, c);
      request := Request(PipelineUrl(connection.url), sql, args);
      if reply.TransportError? {
        return request, false;
      }
      rows := [];
      columns := [];
      rowIndex := 0;
      lastRowId := None;
      ok := true;
      if reply.results != [] && reply.results[0].typ == "ok" {
        var res := reply.results[0];
        var names := ColumnNames(res.cols);
        if names.None? {
          return request, false;
        }
        columns := names.value;
        var parsed := DecodeRows(res.rows, c);
        if parsed.Err? {
          return request, false;
        }
        rows := parsed.value;
        rowCount := |parsed.value|;
      }
    }

    /** `fetchone()`: the next buffered row, or `None` once all were handed out. */
    method FetchOne() returns (row: Option<Fetched>)
      requires Valid()
      modifies this`rowIndex
      ensures Valid()
      ensures old(rowIndex) < |rows| ==>
                row == Some(Shaped(connection.rowFactory, columns, rows[old(rowIndex)])) &&
                rowIndex == old(rowIndex) + 1
      ensures old(rowIndex) == |rows| ==> row == None && rowIndex == old(rowIndex)
    {
      if rowIndex < |rows| {
        row := Some(Shaped(connection.rowFactory, columns, rows[rowIndex]));
        rowIndex := rowIndex + 1;
      } else {
        row := None;
      }
    }

    /** `fetchall()`: every row not yet handed out, in order; the buffer is then spent. */
    method FetchAll() returns (result: seq<Fetched>)
      requires Valid()
      modifies this`rowIndex
      ensures Valid()
      ensures rowIndex == |rows|
      ensures |result| == |rows| - old(rowIndex)
      ensures forall i :: 0 <= i < |result| ==>
                result[i] == Shaped(connection.rowFactory, columns, rows[old(rowIndex) + i])
    {
      var remaining, factory, names := rows[rowIndex..], connection.rowFactory, columns;
      rowIndex := |rows|;
      result := seq(|remaining|, i requires 0 <= i < |remaining| => Shaped(factory, names, remaining[i]));
    }
  }
}
