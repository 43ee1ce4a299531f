/** The datetime hooks of mnemonic/news/utils/msgpack_utils.py and what
    msgpack does with them, at the level of values: `Pack` is what
    `dumps` (`packb` with `default=encode_datetime`) hands to the wire and
    `Unpack` what `loads`/`streaming_loads` (`object_hook=decode_datetime`)
    rebuild from it. The byte format itself is not modelled. */
module MsgpackUtils {
  import opened Wrappers
  import opened Text
  import opened DateFormat
  import opened PyValues

  const DatetimeTag := "__datetime__"
  const AsStrKey := "as_str"

  /** `encode_datetime`: a datetime becomes the tagged mapping whose `as_str`
      is the UTF-8 encoding of `dt.strftime('%Y%m%dT%H:%M:%S.%f')`; any
      other value passes through. */
  function EncodeDateTime(obj: Value): (r: Value)
    ensures !obj.VDateTime? ==> r == obj
    ensures obj.VDateTime? ==>
      && r.VMap? && r.entries.Keys == {DatetimeTag, AsStrKey}
      && r.entries[DatetimeTag] == VBool(true)
      && r.entries[AsStrKey].VBytes?
      && |r.entries[AsStrKey].bytes| == |CompactStamp(obj.dt)|
      && forall i :: 0 <= i < |CompactStamp(obj.dt)| ==>
           r.entries[AsStrKey].bytes[i] as int == CompactStamp(obj.dt)[i] as int
  {
    if obj.VDateTime? then
      CompactStampIsAscii(obj.dt);
      AsciiRoundTrip(CompactStamp(obj.dt));
      VMap(map[DatetimeTag := VBool(true), AsStrKey := VBytes(Utf8Encode(CompactStamp(obj.dt)))])
    else obj
  }

  /** The text `as_str` is parsed from: a bytes value is UTF-8 decoded first,
      a str is used as it is; None for anything that `strptime` refuses before
      parsing (a failed decode, a value that is not a str). */
  function AsStrText(v: Value): Option<string> {
    match v
    case VBytes(b) => Utf8Decode(b)
    case VStr(s) => Some(s)
    case _ => None
  }

  /** `decode_datetime(obj)`: what the hook returns. The tag is recognised by
      key presence; every failure inside the `try` (a missing `as_str`, a
      decode error, a value `strptime` cannot parse) gives None. */
  function DecodeDateTime(obj: map<string, Value>): (r: Value)
    ensures DatetimeTag !in obj ==> r == VMap(obj)
    ensures DatetimeTag in obj ==> r.VNone? || r.VDateTime?
    ensures r.VDateTime? <==>
      && DatetimeTag in obj && AsStrKey in obj
      && AsStrText(obj[AsStrKey]).Some?
      && Strptime(AsStrText(obj[AsStrKey]).value).Some?
    ensures r.VDateTime? ==> r.dt.tz.None? && r.dt == Strptime(AsStrText(obj[AsStrKey]).value).value
  {
    if DatetimeTag !in obj then VMap(obj)
    else if AsStrKey !in obj then VNone
    else
      match AsStrText(obj[AsStrKey])
      case None => VNone
      case Some(s) =>
        match Strptime(s)
        case Some(dt) => VDateTime(dt)
        case None => VNone
  }

  /** What the dictionary passed to `decode_datetime` holds afterwards: a
      tagged mapping whose bytes `as_str` decodes has it replaced, in place,
      by the decoded text, whether or not the parse then succeeds. */
  function AfterDecodeHook(obj: map<string, Value>): map<string, Value> {
    if DatetimeTag in obj && AsStrKey in obj && obj[AsStrKey].VBytes?
       && Utf8Decode(obj[AsStrKey].bytes).Some?
    then obj[AsStrKey := VStr(Utf8Decode(obj[AsStrKey].bytes).value)]
    else obj
  }

  /** A Python dict that the hook receives by reference. */
  class PyDict {
    var items: map<string, Value>

    constructor (items: map<string, Value>)
      ensures this.items == items
    {
      this.items := items;
    }
  }

  /** `decode_datetime` run on a dict object: it may overwrite `as_str` (line
      13) before returning the parsed value. */
  method DecodeDateTimeHook(obj: PyDict) returns (r: Value)
    modifies obj
    ensures r == DecodeDateTime(old(obj.items))
    ensures obj.items == AfterDecodeHook(old(obj.items))
  {
    if DatetimeTag !in obj.items {
      return VMap(obj.items);
    }
    if AsStrKey !in obj.items {
      return VNone;
    }
    if obj.items[AsStrKey].VBytes? {
      var decoded := Utf8Decode(obj.items[AsStrKey].bytes);
      if decoded.None? {
        return VNone;
      }
      obj.items := obj.items[AsStrKey := VStr(decoded.value)];
    }
    if !obj.items[AsStrKey].VStr? {
      return VNone;
    }
    var parsed := Strptime(obj.items[AsStrKey].s);
    r := if parsed.Some? then VDateTime(parsed.value) else VNone;
  }

  /** A value as it stands on the wire: no datetimes (they went through the
      `default` hook) and no tuples (msgpack arrays come back as lists). */
  predicate IsWire(v: Value) {
    match v
    case VDateTime(_) => false
    case VTuple(_) => false
    case VList(xs) => forall i :: 0 <= i < |xs| ==> IsWire(xs[i])
    case VMap(m) => forall k :: k in m ==> IsWire(m[k])
    case _ => true
  }

  /** `packb(v, default=encode_datetime)` at the value level: datetimes are
      handed to the hook, tuples are packed as arrays. */
  function Pack(v: Value): (r: Value)
    ensures IsWire(r)
  {
    match v
    case VDateTime(_) => EncodeDateTime(v)
    case VList(xs) => VList(seq(|xs|, i requires 0 <= i < |xs| => Pack(xs[i])))
    case VTuple(xs) => VList(seq(|xs|, i requires 0 <= i < |xs| => Pack(xs[i])))
    case VMap(m) => VMap(map k | k in m :: Pack(m[k]))
    case _ => v
  }

  /** `unpackb(w, raw=False, object_hook=decode_datetime)` at the value
      level: every mapping is rebuilt from its unpacked values and then
      handed to the hook, innermost first. */
  function Unpack(w: Value): Value {
    match w
    case VList(xs) => VList(seq(|xs|, i requires 0 <= i < |xs| => Unpack(xs[i])))
    case VTuple(xs) => VList(seq(|xs|, i requires 0 <= i < |xs| => Unpack(xs[i])))
    case VMap(m) => DecodeDateTime(map k | k in m :: Unpack(m[k]))
    case _ => w
  }

  /** The values `loads(dumps(v)) == v` holds for: naive datetimes, no
      tuples, and no mapping of the record's own that already holds the
      reserved key. */
  predicate RoundTrips(v: Value) {
    match v
    case VDateTime(dt) => ValidDateTime(dt) && dt.tz.None?
    case VTuple(_) => false
    case VList(xs) => forall i :: 0 <= i < |xs| ==> RoundTrips(xs[i])
    case VMap(m) => DatetimeTag !in m && forall k :: k in m ==> RoundTrips(m[k])
    case _ => true
  }

  /** The tagged mapping of a datetime decodes to the same wall-clock time,
      down to the microsecond; the tzinfo is not carried. */
  lemma DecodeEncodeDateTime(dt: DateTime)
    requires ValidDateTime(dt)
    ensures DecodeDateTime(EncodeDateTime(VDateTime(dt)).entries) == VDateTime(Naive(dt))
  {
    var stamp := CompactStamp(dt);
    CompactStampIsAscii(dt);
    AsciiRoundTrip(stamp);
    StrptimeOfCompactStamp(dt);
    var obj := EncodeDateTime(VDateTime(dt)).entries;
    assert AsStrText(obj[AsStrKey]) == Some(stamp);
  }

  /** A datetime comes back as its wall-clock time. */
  lemma UnpackPackDateTime(dt: DateTime)
    requires ValidDateTime(dt)
    ensures Unpack(Pack(VDateTime(dt))) == VDateTime(Naive(dt))
  {
    DecodeEncodeDateTime(dt);
    var packed := Pack(VDateTime(dt)).entries;
    assert (map k | k in packed :: Unpack(packed[k])) == packed;
  }

  /** Round trip through the codec: `loads(dumps(v)) == v`. */
  lemma {:induction false} UnpackPack(v: Value)
    requires RoundTrips(v)
    ensures Unpack(Pack(v)) == v
  {
    match v
    case VDateTime(dt) =>
      UnpackPackDateTime(dt);
    case VList(xs) =>
      var ps := seq(|xs|, i requires 0 <= i < |xs| => Pack(xs[i]));
      forall i | 0 <= i < |xs| ensures Unpack(ps[i]) == xs[i] {
        UnpackPack(xs[i]);
      }
      assert seq(|ps|, i requires 0 <= i < |ps| => Unpack(ps[i])) == xs;
    case VMap(m) =>
      var pm := map k | k in m :: Pack(m[k]);
      forall k | k in m ensures Unpack(pm[k]) == m[k] {
        UnpackPack(m[k]);
      }
      assert (map k | k in pm :: Unpack(pm[k])) == m;
    case VNone =>
    case VBool(_) =>
    case VInt(_) =>
    case VStr(_) =>
    case VBytes(_) =>
  }

  /** What `RoundTrips` leaves out does not come back: an aware datetime
      comes back naive, a tuple comes back a list, and a mapping of the
      record's own holding the reserved key is taken for a tagged datetime. */
  lemma AwareDateTimeComesBackNaive(dt: DateTime)
    requires ValidDateTime(dt) && dt.tz.Some?
    ensures Unpack(Pack(VDateTime(dt))) == VDateTime(Naive(dt)) != VDateTime(dt)
  {
    UnpackPackDateTime(dt);
  }

  lemma TupleComesBackAsList(xs: seq<Value>)
    requires forall i :: 0 <= i < |xs| ==> RoundTrips(xs[i])
    ensures Unpack(Pack(VTuple(xs))) == VList(xs)
  {
    var ps := seq(|xs|, i requires 0 <= i < |xs| => Pack(xs[i]));
    forall i | 0 <= i < |xs| ensures Unpack(ps[i]) == xs[i] {
      UnpackPack(xs[i]);
    }
    assert seq(|ps|, i requires 0 <= i < |ps| => Unpack(ps[i])) == xs;
  }

  /** The tag's value is never looked at: a mapping `{'__datetime__': False}`
      with no `as_str` decodes to None, and one with `as_str` set to a stamp
      decodes to that datetime even with a false tag. */
  lemma TagIsKeyPresence(tag: Value, dt: DateTime)
    requires ValidDateTime(dt)
    ensures DecodeDateTime(map[DatetimeTag := tag]) == VNone
    ensures DecodeDateTime(map[DatetimeTag := tag, AsStrKey := VStr(CompactStamp(dt))]) == VDateTime(Naive(dt))
  {
    StrptimeOfCompactStamp(dt);
  }
}
