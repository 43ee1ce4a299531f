/** The Python values that flow through the crawl pipeline: what a tweet's
    attributes, a msgpack record, a search hit or a configuration dict can
    hold. Mappings are keyed by strings, as every mapping of the system is. */
module PyValues {
  import opened Wrappers
  import opened Text
  import opened DateFormat

  datatype Value =
    | VNone
    | VBool(b: bool)
    | VInt(i: int)
    | VStr(s: string)
    | VBytes(bytes: seq<byte>)
    | VList(items: seq<Value>)
    | VTuple(elems: seq<Value>)
    | VMap(entries: map<string, Value>)
    | VDateTime(dt: DateTime)

  /** `bool(v)`: None, False, 0 and empty strings, bytes and containers are
      false; everything else, every datetime included, is true. */
  predicate Truthy(v: Value) {
    match v
    case VNone => false
    case VBool(b) => b
    case VInt(i) => i != 0
    case VStr(s) => s != ""
    case VBytes(b) => b != []
    case VList(xs) => xs != []
    case VTuple(xs) => xs != []
    case VMap(m) => m != map[]
    case VDateTime(_) => true
  }

  /** Whether a value can be a dict key: lists and dicts cannot, a tuple can
      when all its elements can. */
  predicate Hashable(v: Value) {
    match v
    case VList(_) => false
    case VMap(_) => false
    case VTuple(xs) => forall i :: 0 <= i < |xs| ==> Hashable(xs[i])
    case _ => true
  }

  const UnhashableError := Error("TypeError", "unhashable type")

  /** `d.get(k)`: the value under `k`, or None. */
  function GetOrNone(d: map<string, Value>, k: string): Value {
    if k in d then d[k] else VNone
  }

  /** Every character is printable ASCII, from space to `~`. */
  predicate Printable(s: string) {
    forall i :: 0 <= i < |s| ==> ' ' <= s[i] <= '~'
  }

  function HexDigit(n: nat): char
    requires n < 16
  {
    "0123456789abcdef"[n]
  }

  /** The text of `repr(bytes([c]))` between the quotes, for one byte. */
  function ByteReprChar(c: byte, quote: char): (r: string)
    requires ' ' <= quote <= '~'
    ensures |r| >= 1
    ensures Printable(r)
  {
    if c as int == quote as int || c == 0x5C then ['\\', c as int as char]
    else if c == 0x09 then "\\t"
    else if c == 0x0A then "\\n"
    else if c == 0x0D then "\\r"
    else if c < 0x20 || c >= 0x7F then ['\\', 'x', HexDigit(c as int / 16), HexDigit(c as int % 16)]
    else [c as int as char]
  }

  function ByteReprBody(b: seq<byte>, quote: char): (r: string)
    requires ' ' <= quote <= '~'
    ensures |r| >= |b|
    ensures Printable(r)
  {
    if b == [] then ""
    else
      var head, tail := ByteReprChar(b[0], quote), ByteReprBody(b[1..], quote);
      assert forall i :: |head| <= i < |head| + |tail| ==> (head + tail)[i] == tail[i - |head|];
      head + tail
  }

  /** `str(b)` for bytes, which is `repr(b)`: `b'...'` with escapes, in double
      quotes when the bytes hold a single quote and no double quote. */
  function BytesStr(b: seq<byte>): (r: string)
    ensures |r| >= |b| + 3
    ensures r[0] == 'b'
    ensures Printable(r)
  {
    var quote := if 0x27 as byte in b && 0x22 as byte !in b then '"' else '\'';
    ['b', quote] + ByteReprBody(b, quote) + [quote]
  }
}
