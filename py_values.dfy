/**
 * The Python object model the annotation path works on. `Value` is what `json.loads`
 * produces and what a pandas cell holds; `Exc` is the exception a Python operation
 * raises. Each operation below is the one the source applies (`d.get(k, default)`,
 * `d[k]`, `v[0]`, `k in v`, `for x in v`, truthiness, `str(v)`, `int(v)`), written
 * out for every kind of value it may meet; error messages follow CPython 3.12.
 */
module PyValues {
  import opened Wrappers
  import opened PyText

  /**
   * A Python value. Floats are carried opaquely as their `repr` (no arithmetic is
   * done on them); a dict is its entries in insertion order.
   */
  datatype Value =
    | VNone
    | VBool(b: bool)
    | VInt(i: int)
    | VFloat(repr: string)
    | VStr(s: string)
    | VList(items: seq<Value>)
    | VDict(entries: seq<(string, Value)>)

  /** The float pandas uses for a missing cell. */
  const NaN: Value := VFloat("nan")

  /** `pandas.isna` of a scalar cell. */
  predicate IsNa(v: Value) {
    v == VNone || v == NaN
  }

  function TypeName(v: Value): string {
    match v
    case VNone => "NoneType"
    case VBool(_) => "bool"
    case VInt(_) => "int"
    case VFloat(_) => "float"
    case VStr(_) => "str"
    case VList(_) => "list"
    case VDict(_) => "dict"
  }

  /** Python truthiness: `bool(v)`. */
  predicate Truthy(v: Value) {
    match v
    case VNone => false
    case VBool(b) => b
    case VInt(i) => i != 0
    case VFloat(r) => r != "0.0" && r != "-0.0"
    case VStr(s) => s != []
    case VList(xs) => xs != []
    case VDict(es) => es != []
  }

  /** A raised Python exception. */
  datatype Exc =
    | HttpError(message: string)        // anything `requests` raises, with its own text
    | JsonDecodeError(message: string)  // `response.json()` on a body that is not JSON
    | KeyError(key: Value)
    | IndexError(message: string)
    | TypeError(message: string)
    | AttributeError(message: string)
    | ValueError(message: string)
    | OverflowError(message: string)
    | NameError(name: string)
    | MergeError(message: string)

  /** `str(e)` of an exception. */
  function Message(e: Exc): string {
    match e
    case HttpError(m) => m
    case JsonDecodeError(m) => m
    case KeyError(k) => Repr(k)
    case IndexError(m) => m
    case TypeError(m) => m
    case AttributeError(m) => m
    case ValueError(m) => m
    case OverflowError(m) => m
    case NameError(n) => "name '" + n + "' is not defined"
    case MergeError(m) => m
  }

  /** Position of the entry for `key`, or `|entries|` when the dict has none. */
  function KeyIndex(entries: seq<(string, Value)>, key: string): (k: nat)
    ensures k <= |entries|
    ensures k < |entries| ==> entries[k].0 == key
    ensures forall j :: 0 <= j < k ==> entries[j].0 != key
  {
    if |entries| == 0 then 0
    else if entries[0].0 == key then 0
    else 1 + KeyIndex(entries[1..], key)
  }

  function Lookup(entries: seq<(string, Value)>, key: string): (r: Option<Value>)
    ensures r.Some? <==> exists j :: 0 <= j < |entries| && entries[j].0 == key
  {
    var k := KeyIndex(entries, key);
    if k < |entries| then Some(entries[k].1) else None
  }

  predicate HasKey(v: Value, key: string) {
    v.VDict? && Lookup(v.entries, key).Some?
  }

  function NoAttribute(v: Value, attr: string): Exc {
    AttributeError("'" + TypeName(v) + "' object has no attribute '" + attr + "'")
  }

  /** `v.get(key, default)`. */
  function Get(v: Value, key: string, default: Value): (r: Result<Value, Exc>)
    ensures r.Err? <==> !v.VDict?
    ensures r.Err? ==> r.error == NoAttribute(v, "get")
    ensures v.VDict? && !HasKey(v, key) ==> r == Ok(default)
  {
    match v
    case VDict(es) =>
      (match Lookup(es, key)
       case Some(x) => Ok(x)
       case None => Ok(default))
    case _ => Err(NoAttribute(v, "get"))
  }

  /** `v[key]` with a string key. */
  function Item(v: Value, key: string): (r: Result<Value, Exc>)
    ensures r.Ok? <==> HasKey(v, key)
    ensures r.Ok? ==> Lookup(v.entries, key) == Some(r.value)
  {
    match v
    case VDict(es) =>
      (match Lookup(es, key)
       case Some(x) => Ok(x)
       case None => Err(KeyError(VStr(key))))
    case VList(_) => Err(TypeError("list indices must be integers or slices, not str"))
    case VStr(_) => Err(TypeError("string indices must be integers, not 'str'"))
    case _ => Err(TypeError("'" + TypeName(v) + "' object is not subscriptable"))
  }

  /** `v[0]`. */
  function First(v: Value): (r: Result<Value, Exc>)
    ensures v.VList? && |v.items| > 0 ==> r == Ok(v.items[0])
  {
    match v
    case VList(xs) => if |xs| > 0 then Ok(xs[0]) else Err(IndexError("list index out of range"))
    case VStr(s) => if |s| > 0 then Ok(VStr([s[0]])) else Err(IndexError("string index out of range"))
    case VDict(_) => Err(KeyError(VInt(0)))  // a dict here comes from JSON: its keys are strings
    case _ => Err(TypeError("'" + TypeName(v) + "' object is not subscriptable"))
  }

  /** `key in v` with a string on the left. */
  function Contains(v: Value, key: string): (r: Result<bool, Exc>)
    ensures v.VDict? ==> r == Ok(HasKey(v, key))
  {
    match v
    case VDict(es) => Ok(Lookup(es, key).Some?)
    case VList(xs) => Ok(VStr(key) in xs)
    case VStr(s) => Ok(IsSubstring(key, s))
    case _ => Err(TypeError("argument of type '" + TypeName(v) + "' is not iterable"))
  }

  /** The values `for x in v` visits: list items, one-character strings, dict keys. */
  function Iter(v: Value): (r: Result<seq<Value>, Exc>)
    ensures v.VList? ==> r == Ok(v.items)
    ensures r.Ok? ==> |r.value| == match v
                                   case VStr(s) => |s|
                                   case VDict(es) => |es|
                                   case _ => |r.value|
  {
    match v
    case VList(xs) => Ok(xs)
    case VStr(s) => Ok(seq(|s|, k requires 0 <= k < |s| => VStr([s[k]])))
    case VDict(es) => Ok(seq(|es|, k requires 0 <= k < |es| => VStr(es[k].0)))
    case _ => Err(TypeError("'" + TypeName(v) + "' object is not iterable"))
  }

  /** The escaped body of a string literal delimited by `quote`. */
  function Escaped(s: string, quote: char): string
  {
    if s == [] then ""
    else
      var c := s[0];
      var e := if c == '\\' then "\\\\"
               else if c == quote then ['\\', quote]
               else if c == '\n' then "\\n"
               else if c == '\r' then "\\r"
               else if c == '\t' then "\\t"
               else [c];
      e + Escaped(s[1..], quote)
  }

  /** `repr(s)` of a string: single quotes unless the text holds `'` and no `"`. */
  function StrRepr(s: string): string {
    var quote := if '\'' in s && '"' !in s then '"' else '\'';
    [quote] + Escaped(s, quote) + [quote]
  }

  /** A string with no quote, backslash or control character that `repr` would escape. */
  predicate PlainText(s: string) {
    forall k :: 0 <= k < |s| ==> s[k] != '\\' && s[k] != '\'' && s[k] != '"' && s[k] != '\n' && s[k] != '\r' && s[k] != '\t'
  }

  /** Plain text needs no escaping. */
  lemma {:induction false} EscapedPlain(s: string, quote: char)
    requires PlainText(s) && (quote == '\'' || quote == '"')
    ensures Escaped(s, quote) == s
  {
    if s != [] {
      assert PlainText(s[1..]) by {
        forall k | 0 <= k < |s[1..]| ensures s[1..][k] == s[k + 1] { }
      }
      EscapedPlain(s[1..], quote);
      assert s == [s[0]] + s[1..];
    }
  }

  /** The `repr` of plain text is the text in single quotes. */
  lemma StrReprPlain(s: string)
    requires PlainText(s)
    ensures StrRepr(s) == "'" + s + "'"
  {
    EscapedPlain(s, '\'');
  }

  /** `str()` of a `KeyError` on a plain text key is the key in single quotes. */
  lemma KeyErrorPlain(key: string)
    requires PlainText(key)
    ensures Message(KeyError(VStr(key))) == "'" + key + "'"
  {
    StrReprPlain(key);
  }

  /** `repr(v)`. */
  function Repr(v: Value): string
    decreases v
  {
    match v
    case VNone => "None"
    case VBool(b) => if b then "True" else "False"
    case VInt(i) => IntToString(i)
    case VFloat(r) => r
    case VStr(s) => StrRepr(s)
    case VList(xs) =>
      "[" + Join(seq(|xs|, k requires 0 <= k < |xs| => Repr(xs[k])), ", ") + "]"
    case VDict(es) =>
      "{" + Join(seq(|es|, k requires 0 <= k < |es| => StrRepr(es[k].0) + ": " + Repr(es[k].1)), ", ") + "}"
  }

  /** `str(v)`: a string is itself, everything else is its `repr`. */
  function Str(v: Value): string {
    if v.VStr? then v.s else Repr(v)
  }

  /** Position of the first item that is not a string, or `|items|`. */
  function FirstNonStr(items: seq<Value>): (k: nat)
    ensures k <= |items|
    ensures k < |items| ==> !items[k].VStr?
    ensures forall j :: 0 <= j < k ==> items[j].VStr?
  {
    if items == [] then 0 else if !items[0].VStr? then 0 else 1 + FirstNonStr(items[1..])
  }

  predicate AllStr(items: seq<Value>) {
    forall k :: 0 <= k < |items| ==> items[k].VStr?
  }

  /** The texts of a list of strings. */
  function Texts(items: seq<Value>): (r: seq<string>)
    requires AllStr(items)
    ensures |r| == |items| && forall k :: 0 <= k < |items| ==> r[k] == items[k].s
  {
    seq(|items|, k requires 0 <= k < |items| => items[k].s)
  }

  /** `sep.join(items)`: `TypeError` naming the first item that is not a string. */
  function JoinStrs(items: seq<Value>, sep: string): (r: Result<string, Exc>)
    ensures r.Ok? <==> AllStr(items)
    ensures r.Ok? ==> r.value == Join(Texts(items), sep)
  {
    var k := FirstNonStr(items);
    if k < |items| then
      Err(TypeError("sequence item " + IntToString(k) + ": expected str instance, "
                    + TypeName(items[k]) + " found"))
    else Ok(Join(Texts(items), sep))
  }

  /** A float `repr` without an exponent: optional `-`, digits, `.`, digits. */
  predicate PlainDecimal(r: string) {
    var body := if |r| > 0 && r[0] == '-' then r[1..] else r;
    var dot := IndexOfChar(body, '.');
    && 0 < dot < |body| - 1
    && AllDigits(body[..dot]) && AllDigits(body[dot + 1..])
  }

  /** `int(x)` of a float written without an exponent: truncation toward zero. */
  function TruncatePlainDecimal(r: string): int
    requires PlainDecimal(r)
  {
    var neg := |r| > 0 && r[0] == '-';
    var body := if neg then r[1..] else r;
    var whole := DigitsValue(body[..IndexOfChar(body, '.')]);
    if neg then -(whole as int) else whole
  }

  /** `int(v)`. */
  function ToInt(v: Value): (r: Result<int, Exc>)
    ensures v.VInt? ==> r == Ok(v.i)
    ensures v.VStr? ==> (r.Ok? <==> ParseInt(v.s).Some?) && (r.Ok? ==> r.value == ParseInt(v.s).value)
  {
    match v
    case VInt(i) => Ok(i)
    case VBool(b) => Ok(if b then 1 else 0)
    case VStr(s) =>
      (match ParseInt(s)
       case Some(i) => Ok(i)
       case None => Err(ValueError("invalid literal for int() with base 10: " + StrRepr(s))))
    case VFloat(r) =>
      if r == "nan" then Err(ValueError("cannot convert float NaN to integer"))
      else if r == "inf" || r == "-inf" then Err(OverflowError("cannot convert float infinity to integer"))
      else if PlainDecimal(r) then Ok(TruncatePlainDecimal(r))
      else Err(ValueError("float written with an exponent"))
    case _ =>
      Err(TypeError("int() argument must be a string, a bytes-like object or a real number, not '"
                    + TypeName(v) + "'"))
  }

  /** `d[key] = v` on the entries of a dict: an existing key keeps its place. */
  function PutEntry(entries: seq<(string, Value)>, key: string, v: Value): (r: seq<(string, Value)>)
    ensures Lookup(r, key) == Some(v)
    ensures forall k :: k != key ==> Lookup(r, k) == Lookup(entries, k)
    ensures KeyIndex(entries, key) < |entries| ==> |r| == |entries|
    ensures KeyIndex(entries, key) == |entries| ==> r == entries + [(key, v)]
  {
    var i := KeyIndex(entries, key);
    if i < |entries| then
      var r := entries[i := (key, v)];
      KeyIndexAt(r, key, i);
      forall k | k != key ensures Lookup(r, k) == Lookup(entries, k) {
        LookupAfterReplace(entries, i, key, v, k);
      }
      r
    else
      var r := entries + [(key, v)];
      assert r[|entries|].0 == key;
      forall k | k != key ensures Lookup(r, k) == Lookup(entries, k) {
        LookupAfterAppend(entries, key, v, k);
      }
      r
  }

  /** Looking up in a dict written as a literal: the first entry, then the rest. */
  lemma LookupCons(k: string, v: Value, rest: seq<(string, Value)>, key: string)
    ensures Lookup([(k, v)] + rest, key) == if k == key then Some(v) else Lookup(rest, key)
  {
    assert ([(k, v)] + rest)[1..] == rest;
  }

  /** The one entry of a one-entry dict literal. */
  lemma LookupSingle(k: string, v: Value)
    ensures Lookup([(k, v)], k) == Some(v)
  {
  }

  lemma KeyIndexAt(entries: seq<(string, Value)>, key: string, i: nat)
    requires i < |entries| && entries[i].0 == key
    requires forall j :: 0 <= j < i ==> entries[j].0 != key
    ensures KeyIndex(entries, key) == i
  {
  }

  lemma {:induction false} LookupAfterReplace(entries: seq<(string, Value)>, i: nat, key: string, v: Value, k: string)
    requires i < |entries| && entries[i].0 == key && k != key
    ensures Lookup(entries[i := (key, v)], k) == Lookup(entries, k)
    decreases i
  {
    var r := entries[i := (key, v)];
    if entries[0].0 != k && i > 0 {
      assert r[1..] == entries[1..][i - 1 := (key, v)];
      LookupAfterReplace(entries[1..], i - 1, key, v, k);
    }
  }

  lemma {:induction false} LookupAfterAppend(entries: seq<(string, Value)>, key: string, v: Value, k: string)
    requires k != key
    ensures Lookup(entries + [(key, v)], k) == Lookup(entries, k)
  {
    var r := entries + [(key, v)];
    if entries == [] {
      assert r == [(key, v)];
    } else if entries[0].0 != k {
      assert r[1..] == entries[1..] + [(key, v)];
      LookupAfterAppend(entries[1..], key, v, k);
    }
  }

  /** `{**d, **e}` written as successive assignments of `e`'s entries into `d`. */
  function PutAll(entries: seq<(string, Value)>, more: seq<(string, Value)>): seq<(string, Value)>
    decreases |more|
  {
    if more == [] then entries else PutAll(PutEntry(entries, more[0].0, more[0].1), more[1..])
  }

  /** The entries of a Python dict: no key twice. */
  predicate DistinctKeys(entries: seq<(string, Value)>) {
    forall i, j :: 0 <= i < j < |entries| ==> entries[i].0 != entries[j].0
  }

  /** `PutAll` leaves alone every key `more` does not bring. */
  lemma {:induction false} PutAllAbsent(entries: seq<(string, Value)>, more: seq<(string, Value)>, key: string)
    requires Lookup(more, key) == None
    ensures Lookup(PutAll(entries, more), key) == Lookup(entries, key)
    decreases |more|
  {
    if more != [] {
      assert more[0].0 != key;
      assert Lookup(more[1..], key) == None by {
        forall j | 0 <= j < |more[1..]| ensures more[1..][j].0 != key {
          assert more[1..][j] == more[j + 1];
        }
      }
      PutAllAbsent(PutEntry(entries, more[0].0, more[0].1), more[1..], key);
    }
  }

  /** A key `more` brings ends up with `more`'s value. */
  lemma {:induction false} PutAllPresent(entries: seq<(string, Value)>, more: seq<(string, Value)>, key: string)
    requires DistinctKeys(more) && Lookup(more, key).Some?
    ensures Lookup(PutAll(entries, more), key) == Lookup(more, key)
    decreases |more|
  {
    var e := PutEntry(entries, more[0].0, more[0].1);
    var rest := more[1..];
    assert DistinctKeys(rest) by {
      forall i, j | 0 <= i < j < |rest| ensures rest[i].0 != rest[j].0 {
        assert rest[i] == more[i + 1] && rest[j] == more[j + 1];
      }
    }
    if more[0].0 == key {
      assert Lookup(rest, key) == None by {
        forall j | 0 <= j < |rest| ensures rest[j].0 != key {
          assert rest[j] == more[j + 1];
        }
      }
      PutAllAbsent(e, rest, key);
    } else {
      assert KeyIndex(more, key) == 1 + KeyIndex(rest, key);
      PutAllPresent(e, rest, key);
    }
  }

  /** A dict that never held `key` does not get it from `PutAll` unless `more` brings it. */
  lemma {:induction false} PutAllKeys(entries: seq<(string, Value)>, more: seq<(string, Value)>, key: string)
    ensures Lookup(PutAll(entries, more), key).Some? <==>
            Lookup(entries, key).Some? || Lookup(more, key).Some?
    decreases |more|
  {
    if more != [] {
      var e := PutEntry(entries, more[0].0, more[0].1);
      PutAllKeys(e, more[1..], key);
      if key != more[0].0 {
        assert Lookup(more, key) == Lookup(more[1..], key) by {
          assert KeyIndex(more, key) == 1 + KeyIndex(more[1..], key);
        }
      }
    }
  }
}
