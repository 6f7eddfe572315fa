/**
 * The serialiser behind the container: a stand-in for the JSONEncoder and
 * JSONDecoder pair. An entry is written as a flat sequence of tagged tokens;
 * decoding is told the Swift type to read and fails on any tag that does not
 * fit it. Encoding fails exactly where JSONEncoder throws by default: on a
 * NaN or infinite double.
 */
module Codec {

  import opened Wrappers
  import opened Lifetimes
  import opened Cacheable
  import opened Entry

  datatype Token =
    | StrToken(s: string)
    | IntToken(i: int)
    | BoolToken(b: bool)
    | NumToken(x: real)
    | ArrayHeader(count: nat)
    | DateToken(date: Date)

  /** The opaque `Data` stored per key. */
  type Data = seq<Token>

  /** True when JSON can represent `v`: no NaN or infinite double occurs in it. */
  predicate Representable(v: Value)
  {
    match v
    case Num(d) => d.Finite?
    case Array(es) => forall e | e in es :: Representable(e)
    case _ => true
  }

  function EncodeValue(v: Value): (r: Option<Data>)
    ensures r.Some? <==> Representable(v)
    ensures r.Some? ==> |r.value| > 0
    decreases v, 1
  {
    match v
    case Str(s) => Some([StrToken(s)])
    case Int(i) => Some([IntToken(i)])
    case Bool(b) => Some([BoolToken(b)])
    case Num(d) => if d.Finite? then Some([NumToken(d.x)]) else None
    case Array(es) =>
      match EncodeElements(es)
      case None => None
      case Some(body) => Some([ArrayHeader(|es|)] + body)
  }

  /** The encodings of `es`, one after the other. */
  function EncodeElements(es: seq<Value>): (r: Option<Data>)
    ensures r.Some? <==> forall e | e in es :: Representable(e)
    decreases es, 0
  {
    if es == [] then Some([])
    else
      var head, tail := EncodeValue(es[0]), EncodeElements(es[1..]);
      assert es[0] in es && forall e | e in es[1..] :: e in es;
      assert forall e | e in es :: e == es[0] || e in es[1..];
      if head.Some? && tail.Some? then Some(head.value + tail.value) else None
  }

  /**
   * Reads one value of Swift type `t` from the front of `ts` and returns it
   * with the tokens that follow it; fails when a tag does not fit `t`.
   */
  function DecodeValue(ts: Data, t: Type): (r: Option<(Value, Data)>)
    ensures r.Some? ==> |r.value.1| < |ts|
    decreases |ts|, 0
  {
    if ts == [] then None
    else
      match (ts[0], t)
      case (StrToken(s), StringType) => Some((Str(s), ts[1..]))
      case (IntToken(i), IntType) => Some((Int(i), ts[1..]))
      case (BoolToken(b), BoolType) => Some((Bool(b), ts[1..]))
      case (NumToken(x), DoubleType) => Some((Num(Finite(x)), ts[1..]))
      case (ArrayHeader(n), ArrayType(et)) =>
        (match DecodeElements(ts[1..], n, et)
         case None => None
         case Some((es, rest)) => Some((Array(es), rest)))
      case _ => None
  }

  /** Reads `n` values of type `t` from the front of `ts`. */
  function DecodeElements(ts: Data, n: nat, t: Type): (r: Option<(seq<Value>, Data)>)
    ensures r.Some? ==> |r.value.0| == n && |r.value.1| <= |ts|
    decreases |ts|, 1, n
  {
    if n == 0 then Some(([], ts))
    else
      match DecodeValue(ts, t)
      case None => None
      case Some((v, afterValue)) =>
        match DecodeElements(afterValue, n - 1, t)
        case None => None
        case Some((vs, rest)) => Some(([v] + vs, rest))
  }

  /** Decoding an encoded value reads it back exactly when it has the requested type. */
  lemma {:induction false} DecodeEncodedValue(v: Value, t: Type, rest: Data)
    requires Representable(v)
    ensures DecodeValue(EncodeValue(v).value + rest, t) == if HasType(v, t) then Some((v, rest)) else None
    decreases v, 1
  {
    var ts := EncodeValue(v).value + rest;
    match v
    case Array(es) =>
      var body := EncodeElements(es).value;
      assert ts[1..] == body + rest;
      DecodeEncodedElements(es, if t.ArrayType? then t.element else t, rest);
    case _ =>
  }

  lemma {:induction false} DecodeEncodedElements(es: seq<Value>, t: Type, rest: Data)
    requires forall e | e in es :: Representable(e)
    ensures DecodeElements(EncodeElements(es).value + rest, |es|, t)
            == if forall e | e in es :: HasType(e, t) then Some((es, rest)) else None
    decreases es, 0
  {
    if es == [] {
      assert EncodeElements(es).value + rest == rest;
    } else {
      var head, tail := EncodeValue(es[0]).value, EncodeElements(es[1..]).value;
      assert EncodeElements(es).value + rest == head + (tail + rest);
      assert forall e | e in es :: e == es[0] || e in es[1..];
      assert es[0] in es && forall e | e in es[1..] :: e in es;
      DecodeEncodedValue(es[0], t, tail + rest);
      DecodeEncodedElements(es[1..], t, rest);
      assert [es[0]] + es[1..] == es;
    }
  }

  /** Whatever decodes has the requested type and is the encoding of what it decodes to. */
  lemma {:induction false} EncodeDecodedValue(ts: Data, t: Type)
    requires DecodeValue(ts, t).Some?
    ensures var (v, rest) := DecodeValue(ts, t).value;
            HasType(v, t) && Representable(v) && ts == EncodeValue(v).value + rest
    decreases |ts|, 0
  {
    assert ts == [ts[0]] + ts[1..];
    if ts[0].ArrayHeader? {
      EncodeDecodedElements(ts[1..], ts[0].count, t.element);
    }
  }

  lemma {:induction false} EncodeDecodedElements(ts: Data, n: nat, t: Type)
    requires DecodeElements(ts, n, t).Some?
    ensures var (es, rest) := DecodeElements(ts, n, t).value;
            && (forall e | e in es :: HasType(e, t) && Representable(e))
            && ts == EncodeElements(es).value + rest
    decreases |ts|, 1, n
  {
    if n > 0 {
      var (v, afterValue) := DecodeValue(ts, t).value;
      var (vs, rest) := DecodeElements(afterValue, n - 1, t).value;
      EncodeDecodedValue(ts, t);
      EncodeDecodedElements(afterValue, n - 1, t);
      var es := [v] + vs;
      assert es[0] == v && es[1..] == vs;
      assert forall e | e in es :: e == v || e in vs;
    }
  }

  /** `encoder.encode(CacheData(value:cacheDate:))`: the date, then the value. */
  function EncodeEntry(entry: CacheData): (r: Option<Data>)
    ensures r.Some? <==> Representable(entry.value)
  {
    match EncodeValue(entry.value)
    case None => None
    case Some(body) => Some([DateToken(entry.cacheDate)] + body)
  }

  /**
   * `decoder.decode(CacheData<Value>.self, from:)` for the Swift type `t`:
   * whatever it reads has that type and is the entry the data encodes.
   */
  function DecodeEntry(data: Data, t: Type): (r: Option<CacheData>)
    ensures r.Some? ==> HasType(r.value.value, t) && EncodeEntry(r.value) == Some(data)
  {
    if data == [] || !data[0].DateToken? then None
    else
      match DecodeValue(data[1..], t)
      case None => None
      case Some((v, rest)) =>
        if rest != [] then None
        else
          EncodeDecodedValue(data[1..], t);
          assert data == [data[0]] + EncodeValue(v).value;
          Some(CacheData(v, data[0].date))
  }

  /** An encoded entry decodes to itself exactly when requested at a type its value has. */
  lemma DecodeEncodedEntry(entry: CacheData, t: Type)
    requires Representable(entry.value)
    ensures DecodeEntry(EncodeEntry(entry).value, t) == if HasType(entry.value, t) then Some(entry) else None
  {
    var body := EncodeValue(entry.value).value;
    assert EncodeEntry(entry).value[1..] == body + [];
    DecodeEncodedValue(entry.value, t, []);
  }
}
