/**
 The wire grammar shared by every payload of the protocol, and its three laws.

 The payload documentation describes each message as a layout: big-endian
 integers, length-prefixed strings, counted lists and tagged alternatives.
 `Format` is that language of layouts, `Encode` and `Decode` are its meaning, and
 the laws below hold of every layout that can be written in it. The hand-written
 encoders and decoders (modules `Encoders` and `Decoders`) are proved to implement
 their layouts.
 */
module Wire {

  type byte = n: int | 0 <= n < 256

  type pos = n: int | 0 < n witness 1

  datatype PayloadError =
    | Truncated
    | FieldTooLarge(size: nat)
    | InvalidUtf8(field: string)
    | InvalidTag(tag: byte, field: string)

  /** A value or an error; usable with `:-` like the source's `?`. */
  datatype Result<+T> = Ok(value: T) | Err(error: PayloadError) {
    predicate IsFailure() { Err? }
    function PropagateFailure<U>(): Result<U> requires Err? { Err(error) }
    function Extract(): T requires Ok? { value }
  }

  // ---------------------------------------------------------------- integers

  function Pow256(w: nat): (p: nat)
    ensures p >= 1
  {
    if w == 0 then 1 else 256 * Pow256(w - 1)
  }

  function BigEndian(w: nat, n: nat): (b: seq<byte>)
    requires n < Pow256(w)
    ensures |b| == w
  {
    if w == 0 then [] else BigEndian(w - 1, n / 256) + [n % 256]
  }

  function FromBigEndian(b: seq<byte>): (n: nat)
    ensures n < Pow256(|b|)
  {
    if b == [] then 0 else FromBigEndian(b[..|b| - 1]) * 256 + b[|b| - 1]
  }

  lemma {:induction false} FromBigEndianInverts(w: nat, n: nat)
    requires n < Pow256(w)
    ensures FromBigEndian(BigEndian(w, n)) == n
  {
    if w > 0 {
      FromBigEndianInverts(w - 1, n / 256);
      assert BigEndian(w, n)[..w - 1] == BigEndian(w - 1, n / 256);
    }
  }

  lemma {:induction false} BigEndianInverts(b: seq<byte>)
    ensures BigEndian(|b|, FromBigEndian(b)) == b
  {
    if b != [] {
      var w, high, low := |b|, FromBigEndian(b[..|b| - 1]), b[|b| - 1];
      BigEndianInverts(b[..w - 1]);
      assert b == b[..w - 1] + [low];
      assert FromBigEndian(b) == high * 256 + low;
      LowDigit(high, low);
      hide Pow256;
      assert BigEndian(w, high * 256 + low) == BigEndian(w - 1, high) + [low];
    }
  }

  lemma LowDigit(high: nat, low: byte)
    ensures (high * 256 + low) / 256 == high && (high * 256 + low) % 256 == low
  {
  }

  /** The values an integer field of `w` bytes can hold (two's complement when signed). */
  predicate InRange(w: pos, signed: bool, n: int) {
    if signed then 0 - Pow256(w) <= 2 * n < Pow256(w) else 0 <= n < Pow256(w)
  }

  function Unsigned(w: pos, n: int): (u: nat)
    requires 0 - Pow256(w) <= n < Pow256(w)
    ensures u < Pow256(w)
  {
    if n < 0 then n + Pow256(w) else n
  }

  function Interpreted(w: pos, signed: bool, u: nat): (n: int)
    requires u < Pow256(w)
    ensures InRange(w, signed, n)
    ensures Unsigned(w, n) == u
  {
    assert Pow256(w) == 256 * Pow256(w - 1);
    if signed && Pow256(w) <= 2 * u then u - Pow256(w) else u
  }

  // ------------------------------------------------ integers, byte by byte

  lemma MulLe(a: int, b: int, d: nat)
    ensures a <= b ==> a * d <= b * d
  {
  }

  lemma Quotient(n: nat, d: pos, q: nat, r: nat)
    requires n == q * d + r && r < d
    ensures n / d == q
  {
    MulLe(n / d + 1, q, d);
    MulLe(q + 1, n / d, d);
  }

  lemma DivDiv(n: nat, b: pos)
    ensures n / 256 / b == n / (256 * b)
  {
    var q, r, s := n / 256 / b, n / 256 % b, n % 256;
    assert q * (256 * b) == 256 * (q * b);
    Quotient(n, 256 * b, q, 256 * r + s);
  }

  /** The most significant byte comes first: byte `i` of `w` is the digit of weight `256^(w - 1 - i)`. */
  lemma {:induction false} ByteAt(w: nat, n: nat, i: nat)
    requires n < Pow256(w) && i < w
    ensures BigEndian(w, n)[i] == n / Pow256(w - 1 - i) % 256
  {
    if i < w - 1 {
      ByteAt(w - 1, n / 256, i);
      DivDiv(n, Pow256(w - 2 - i));
    }
  }

  predicate AllOnes(b: seq<byte>) { forall i :: 0 <= i < |b| ==> b[i] == 0xFF }

  lemma {:induction false} LargestIsAllOnes(w: nat)
    ensures AllOnes(BigEndian(w, Pow256(w) - 1))
  {
    if w > 0 {
      LargestIsAllOnes(w - 1);
      LowDigit(Pow256(w - 1) - 1, 0xFF);
      assert Pow256(w) - 1 == (Pow256(w - 1) - 1) * 256 + 0xFF;
      assert BigEndian(w, Pow256(w) - 1) == BigEndian(w - 1, Pow256(w - 1) - 1) + [0xFF];
    }
  }

  // ------------------------------------------------------------------- UTF-8

  predicate Continuation(b: byte) { 0x80 <= b <= 0xBF }

  /** Length of the well-formed UTF-8 sequence at the front of `s`, or 0 if there is none. */
  function Utf8Width(s: seq<byte>): (n: nat)
    requires s != []
    ensures n <= |s|
  {
    if s[0] <= 0x7F then 1
    else if |s| >= 2 && 0xC2 <= s[0] <= 0xDF && Continuation(s[1]) then 2
    else if |s| >= 3 && 0xE0 <= s[0] <= 0xEF && Continuation(s[1]) && Continuation(s[2])
      && (s[0] == 0xE0 ==> s[1] >= 0xA0) && (s[0] == 0xED ==> s[1] <= 0x9F) then 3
    else if |s| >= 4 && 0xF0 <= s[0] <= 0xF4 && Continuation(s[1]) && Continuation(s[2]) && Continuation(s[3])
      && (s[0] == 0xF0 ==> s[1] >= 0x90) && (s[0] == 0xF4 ==> s[1] <= 0x8F) then 4
    else 0
  }

  predicate ValidUtf8(s: seq<byte>) {
    s == [] || (Utf8Width(s) > 0 && ValidUtf8(s[Utf8Width(s)..]))
  }

  // ----------------------------------------------------------------- grammar

  datatype Format =
    | Empty
    | Int(width: pos, signed: bool)
    | Blob(width: pos)                       // [len][bytes]
    | Text(width: pos, field: string)        // [len][utf-8 bytes]
    | Then(first: Format, second: Format)
    | Many(width: pos, item: Format)         // [count][item]*
    | Choice(field: string, cases: seq<Format>)  // [u8 tag][case]

  datatype Value =
    | Unit
    | Num(n: int)
    | Raw(bytes: seq<byte>)
    | Both(fst: Value, snd: Value)
    | Items(vals: seq<Value>)
    | Alt(tag: nat, v: Value)

  /** `v` is a value of layout `f`: what the source's static types guarantee. */
  predicate Typed(f: Format, v: Value)
    decreases f, 0, 0
  {
    match f
    case Empty => v == Unit
    case Int(w, signed) => v.Num? && InRange(w, signed, v.n)
    case Blob(_) => v.Raw?
    case Text(_, _) => v.Raw? && ValidUtf8(v.bytes)
    case Then(a, b) => v.Both? && Typed(a, v.fst) && Typed(b, v.snd)
    case Many(_, item) => v.Items? && AllTyped(item, v.vals)
    case Choice(_, cases) => v.Alt? && v.tag < |cases| && v.tag < 256 && Typed(cases[v.tag], v.v)
  }

  predicate AllTyped(item: Format, vs: seq<Value>)
    decreases item, 1, |vs|
  {
    vs == [] || (Typed(item, vs[0]) && AllTyped(item, vs[1..]))
  }

  function Sized(w: pos, size: nat): (r: Result<seq<byte>>)
    ensures r.Ok? <==> size < Pow256(w)
    ensures r.Ok? ==> |r.value| == w
  {
    if size < Pow256(w) then Ok(BigEndian(w, size)) else Err(FieldTooLarge(size))
  }

  function Encode(f: Format, v: Value): (r: Result<seq<byte>>)
    requires Typed(f, v)
    ensures r.Err? ==> r.error.FieldTooLarge?
    decreases f, 0, 0
  {
    match f
    case Empty => Ok([])
    case Int(w, signed) => Ok(BigEndian(w, Unsigned(w, v.n)))
    case Blob(w) =>
      var len :- Sized(w, |v.bytes|);
      Ok(len + v.bytes)
    case Text(w, _) =>
      var len :- Sized(w, |v.bytes|);
      Ok(len + v.bytes)
    case Then(a, b) =>
      var x :- Encode(a, v.fst);
      var y :- Encode(b, v.snd);
      Ok(x + y)
    case Many(w, item) =>
      var count :- Sized(w, |v.vals|);
      var body :- EncodeAll(item, v.vals);
      Ok(count + body)
    case Choice(_, cases) =>
      var body :- Encode(cases[v.tag], v.v);
      Ok([v.tag] + body)
  }

  function EncodeAll(item: Format, vs: seq<Value>): (r: Result<seq<byte>>)
    requires AllTyped(item, vs)
    ensures r.Err? ==> r.error.FieldTooLarge?
    decreases item, 1, |vs|
  {
    if vs == [] then Ok([])
    else
      var x :- Encode(item, vs[0]);
      var rest :- EncodeAll(item, vs[1..]);
      Ok(x + rest)
  }

  datatype Parsed = Parsed(v: Value, rest: seq<byte>)
  datatype ParsedAll = ParsedAll(vs: seq<Value>, rest: seq<byte>)

  function TakeNum(w: pos, b: seq<byte>): (r: Result<(nat, seq<byte>)>)
    ensures r.Ok? ==> r.value.0 < Pow256(w) && b == BigEndian(w, r.value.0) + r.value.1
  {
    if |b| < w then Err(Truncated)
    else
      BigEndianInverts(b[..w]);
      Ok((FromBigEndian(b[..w]), b[w..]))
  }

  function TakeSized(w: pos, b: seq<byte>): (r: Result<(seq<byte>, seq<byte>)>)
  {
    var (len, rest) :- TakeNum(w, b);
    if |rest| < len then Err(Truncated) else Ok((rest[..len], rest[len..]))
  }

  function Decode(f: Format, b: seq<byte>): (r: Result<Parsed>)
    ensures r.Ok? ==> |r.value.rest| <= |b|
    decreases f, 0, 0
  {
    match f
    case Empty => Ok(Parsed(Unit, b))
    case Int(w, signed) =>
      var (u, rest) :- TakeNum(w, b);
      Ok(Parsed(Num(Interpreted(w, signed, u)), rest))
    case Blob(w) =>
      var (s, rest) :- TakeSized(w, b);
      Ok(Parsed(Raw(s), rest))
    case Text(w, field) =>
      var (s, rest) :- TakeSized(w, b);
      if ValidUtf8(s) then Ok(Parsed(Raw(s), rest)) else Err(InvalidUtf8(field))
    case Then(x, y) =>
      var p :- Decode(x, b);
      var q :- Decode(y, p.rest);
      Ok(Parsed(Both(p.v, q.v), q.rest))
    case Many(w, item) =>
      var (n, rest) :- TakeNum(w, b);
      var p :- DecodeAll(item, n, rest);
      Ok(Parsed(Items(p.vs), p.rest))
    case Choice(field, cases) =>
      if b == [] then Err(Truncated)
      else if b[0] >= |cases| then Err(InvalidTag(b[0], field))
      else
        var p :- Decode(cases[b[0]], b[1..]);
        Ok(Parsed(Alt(b[0], p.v), p.rest))
  }

  function DecodeAll(item: Format, n: nat, b: seq<byte>): (r: Result<ParsedAll>)
    ensures r.Ok? ==> |r.value.rest| <= |b| && |r.value.vs| == n
    decreases item, 1, n
  {
    if n == 0 then Ok(ParsedAll([], b))
    else
      var p :- Decode(item, b);
      var q :- DecodeAll(item, n - 1, p.rest);
      Ok(ParsedAll([p.v] + q.vs, q.rest))
  }

  // -------------------------------------------------------------------- laws

  lemma Assoc(a: seq<byte>, b: seq<byte>, c: seq<byte>)
    ensures (a + b) + c == a + (b + c)
  {
  }

  /** A prefix of `a + b` that reaches into `b`. */
  lemma TakeSplit(a: seq<byte>, b: seq<byte>, k: nat)
    requires k <= |a| + |b|
    ensures k <= |a| ==> (a + b)[..k] == a[..k]
    ensures |a| <= k ==> (a + b)[..k] == a + b[..k - |a|]
  {
  }

  lemma TakeNumOfEncoding(w: pos, n: nat, tail: seq<byte>)
    requires n < Pow256(w)
    ensures TakeNum(w, BigEndian(w, n) + tail) == Ok((n, tail))
  {
  }

  lemma TakeSizedOfEncoding(w: pos, s: seq<byte>, tail: seq<byte>)
    requires |s| < Pow256(w)
    ensures TakeSized(w, BigEndian(w, |s|) + s + tail) == Ok((s, tail))
  {
    TakeNumOfEncoding(w, |s|, s + tail);
    Assoc(BigEndian(w, |s|), s, tail);
    assert (s + tail)[..|s|] == s && (s + tail)[|s|..] == tail;
  }

  /** Law 1. Decoding an encoding, whatever follows it, gives the value back and leaves what follows. */
  lemma {:induction false} RoundTrip(f: Format, v: Value, tail: seq<byte>)
    requires Typed(f, v) && Encode(f, v).Ok?
    ensures Decode(f, Encode(f, v).value + tail) == Ok(Parsed(v, tail))
    decreases f, 0, 1
  {
    var e := Encode(f, v).value;
    match f
    case Empty => assert e + tail == tail;
    case Int(w, signed) => TakeNumOfEncoding(w, Unsigned(w, v.n), tail);
    case Blob(w) => TakeSizedOfEncoding(w, v.bytes, tail);
    case Text(w, _) => TakeSizedOfEncoding(w, v.bytes, tail);
    case Then(x, y) =>
      var ex, ey := Encode(x, v.fst).value, Encode(y, v.snd).value;
      Assoc(ex, ey, tail);
      RoundTrip(x, v.fst, ey + tail);
      RoundTrip(y, v.snd, tail);
    case Many(w, item) =>
      var body := EncodeAll(item, v.vals).value;
      TakeNumOfEncoding(w, |v.vals|, body + tail);
      RoundTripAll(item, v.vals, tail);
      Assoc(BigEndian(w, |v.vals|), body, tail);
    case Choice(_, _) => RoundTripChoice(f, v, tail);
  }

  lemma {:induction false} RoundTripChoice(f: Format, v: Value, tail: seq<byte>)
    requires f.Choice? && Typed(f, v) && Encode(f, v).Ok?
    ensures Decode(f, Encode(f, v).value + tail) == Ok(Parsed(v, tail))
    decreases f, 0, 0
  {
    var body := Encode(f.cases[v.tag], v.v).value;
    RoundTrip(f.cases[v.tag], v.v, tail);
    Assoc([v.tag], body, tail);
    assert ([v.tag] + (body + tail))[1..] == body + tail;
  }

  lemma {:induction false} RoundTripAll(item: Format, vs: seq<Value>, tail: seq<byte>)
    requires AllTyped(item, vs) && EncodeAll(item, vs).Ok?
    ensures DecodeAll(item, |vs|, EncodeAll(item, vs).value + tail) == Ok(ParsedAll(vs, tail))
    decreases item, 1, |vs|
  {
    if vs == [] {
      assert [] + tail == tail;
    } else {
      var x, rest := Encode(item, vs[0]).value, EncodeAll(item, vs[1..]).value;
      Assoc(x, rest, tail);
      RoundTrip(item, vs[0], rest + tail);
      RoundTripAll(item, vs[1..], tail);
      assert vs == [vs[0]] + vs[1..];
    }
  }

  lemma TakeSizedConsumes(w: pos, b: seq<byte>)
    requires TakeSized(w, b).Ok?
    ensures var (s, rest) := TakeSized(w, b).value;
            |s| < Pow256(w) && b == BigEndian(w, |s|) + s + rest
  {
    hide BigEndian, FromBigEndian, Pow256;
    var (len, r) := TakeNum(w, b).value;
    assert r == r[..len] + r[len..];
    Assoc(BigEndian(w, len), r[..len], r[len..]);
  }

  /** `Decode(f, b)` consumed exactly the encoding of the value it returned. */
  ghost predicate Consumed(f: Format, b: seq<byte>)
    requires Decode(f, b).Ok?
  {
    var p := Decode(f, b).value;
    Typed(f, p.v) && Encode(f, p.v).Ok? && b == Encode(f, p.v).value + p.rest
  }

  /** Law 2. Accepted bytes are canonical: what was consumed is the one encoding of the value returned. */
  lemma {:induction false} Canonical(f: Format, b: seq<byte>)
    requires Decode(f, b).Ok?
    ensures Consumed(f, b)
    decreases f, 0, 1
  {
    hide Decode, Consumed;
    match f
    case Then(_, _) => CanonicalThen(f, b);
    case Many(_, _) => CanonicalMany(f, b);
    case Choice(_, _) => CanonicalChoice(f, b);
    case _ => CanonicalLeaf(f, b);
  }

  lemma CanonicalLeaf(f: Format, b: seq<byte>)
    requires !f.Then? && !f.Many? && !f.Choice? && Decode(f, b).Ok?
    ensures Consumed(f, b)
  {
    match f
    case Empty => assert b == [] + b;
    case Int(_, _) =>
    case Blob(w) => TakeSizedConsumes(w, b);
    case Text(w, _) => TakeSizedConsumes(w, b);
  }

  lemma {:induction false} CanonicalMany(f: Format, b: seq<byte>)
    requires f.Many? && Decode(f, b).Ok?
    ensures Consumed(f, b)
    decreases f, 0, 0
  {
    var (n, rest) := TakeNum(f.width, b).value;
    var q := DecodeAll(f.item, n, rest).value;
    CanonicalAll(f.item, n, rest);
    Assoc(BigEndian(f.width, n), EncodeAll(f.item, q.vs).value, q.rest);
  }

  lemma {:induction false} CanonicalThen(f: Format, b: seq<byte>)
    requires f.Then? && Decode(f, b).Ok?
    ensures Consumed(f, b)
    decreases f, 0, 0
  {
    var p := Decode(f.first, b).value;
    var q := Decode(f.second, p.rest).value;
    Canonical(f.first, b);
    Canonical(f.second, p.rest);
    Assoc(Encode(f.first, p.v).value, Encode(f.second, q.v).value, q.rest);
  }

  lemma {:induction false} CanonicalChoice(f: Format, b: seq<byte>)
    requires f.Choice? && Decode(f, b).Ok?
    ensures Consumed(f, b)
    decreases f, 0, 0
  {
    var chosen := f.cases[b[0]];
    var p := Decode(chosen, b[1..]).value;
    Canonical(chosen, b[1..]);
    Assoc([b[0]], Encode(chosen, p.v).value, p.rest);
    assert b == [b[0]] + b[1..];
  }

  lemma {:induction false} CanonicalAll(item: Format, n: nat, b: seq<byte>)
    requires DecodeAll(item, n, b).Ok?
    ensures var p := DecodeAll(item, n, b).value;
            && AllTyped(item, p.vs) && EncodeAll(item, p.vs).Ok?
            && b == EncodeAll(item, p.vs).value + p.rest
    decreases item, 1, n
  {
    if n == 0 {
      assert b == [] + b;
    } else {
      var p := Decode(item, b).value;
      Canonical(item, b);
      var q := DecodeAll(item, n - 1, p.rest).value;
      CanonicalAll(item, n - 1, p.rest);
      assert ([p.v] + q.vs)[1..] == q.vs;
      Assoc(Encode(item, p.v).value, EncodeAll(item, q.vs).value, q.rest);
    }
  }

  lemma TakeSizedOfPrefix(w: pos, s: seq<byte>, k: nat)
    requires |s| < Pow256(w) && k < w + |s|
    ensures TakeSized(w, (BigEndian(w, |s|) + s)[..k]) == Err(Truncated)
  {
    hide Pow256, BigEndian, FromBigEndian;
    if w <= k {
      TakeSplit(BigEndian(w, |s|), s, k);
      TakeNumOfEncoding(w, |s|, s[..k - w]);
      hide TakeNum;
    }
  }

  /**
   A signed field holds a negative number as what is left of `256^w`, and any other number
   as itself. Minus one is bytes of all ones at every width: partition -1 is FF FF FF FF.
   */
  lemma SignedBytes(w: pos, n: int)
    requires InRange(w, true, n)
    ensures Encode(Int(w, true), Num(n)) == Ok(BigEndian(w, if n < 0 then Pow256(w) + n else n))
    ensures n == -1 ==> AllOnes(Encode(Int(w, true), Num(n)).value)
  {
    LargestIsAllOnes(w);
  }

  /** Law 3. A strict prefix of an encoding is reported as truncated, and as nothing else. */
  lemma {:induction false} PrefixTruncated(f: Format, v: Value, k: nat)
    requires Typed(f, v) && Encode(f, v).Ok? && k < |Encode(f, v).value|
    ensures Decode(f, Encode(f, v).value[..k]) == Err(Truncated)
    decreases f, 0, 1
  {
    hide Encode, Decode, Typed;
    match f
    case Then(_, _) => PrefixTruncatedThen(f, v, k);
    case Many(_, _) => PrefixTruncatedMany(f, v, k);
    case Choice(_, _) => PrefixTruncatedChoice(f, v, k);
    case _ => PrefixTruncatedLeaf(f, v, k);
  }

  lemma PrefixTruncatedLeaf(f: Format, v: Value, k: nat)
    requires !f.Then? && !f.Many? && !f.Choice? && Typed(f, v) && Encode(f, v).Ok? && k < |Encode(f, v).value|
    ensures Decode(f, Encode(f, v).value[..k]) == Err(Truncated)
  {
    match f
    case Empty =>
    case Int(_, _) =>
    case Blob(w) => TakeSizedOfPrefix(w, v.bytes, k);
    case Text(w, _) => TakeSizedOfPrefix(w, v.bytes, k);
  }

  lemma {:induction false} PrefixTruncatedMany(f: Format, v: Value, k: nat)
    requires f.Many? && Typed(f, v) && Encode(f, v).Ok? && k < |Encode(f, v).value|
    ensures Decode(f, Encode(f, v).value[..k]) == Err(Truncated)
    decreases f, 0, 0
  {
    var w, item := f.width, f.item;
    if w <= k {
      var body := EncodeAll(item, v.vals).value;
      TakeNumOfEncoding(w, |v.vals|, body[..k - w]);
      PrefixTruncatedAll(item, v.vals, k - w);
      TakeSplit(BigEndian(w, |v.vals|), body, k);
    }
  }

  lemma {:induction false} PrefixTruncatedChoice(f: Format, v: Value, k: nat)
    requires f.Choice? && Typed(f, v) && Encode(f, v).Ok? && k < |Encode(f, v).value|
    ensures Decode(f, Encode(f, v).value[..k]) == Err(Truncated)
    decreases f, 0, 0
  {
    if 1 <= k {
      PrefixTruncated(f.cases[v.tag], v.v, k - 1);
      assert Encode(f, v).value[..k][1..] == Encode(f.cases[v.tag], v.v).value[..k - 1];
    }
  }

  lemma {:induction false} PrefixTruncatedThen(f: Format, v: Value, k: nat)
    requires f.Then? && Typed(f, v) && Encode(f, v).Ok? && k < |Encode(f, v).value|
    ensures Decode(f, Encode(f, v).value[..k]) == Err(Truncated)
    decreases f, 0, 0
  {
    var x, y := Encode(f.first, v.fst).value, Encode(f.second, v.snd).value;
    TakeSplit(x, y, k);
    if k < |x| {
      PrefixTruncated(f.first, v.fst, k);
    } else {
      RoundTrip(f.first, v.fst, y[..k - |x|]);
      PrefixTruncated(f.second, v.snd, k - |x|);
    }
  }

  lemma {:induction false} PrefixTruncatedAll(item: Format, vs: seq<Value>, k: nat)
    requires AllTyped(item, vs) && EncodeAll(item, vs).Ok?
    requires k < |EncodeAll(item, vs).value|
    ensures DecodeAll(item, |vs|, EncodeAll(item, vs).value[..k]) == Err(Truncated)
    decreases item, 1, |vs|
  {
    var x, rest := Encode(item, vs[0]).value, EncodeAll(item, vs[1..]).value;
    TakeSplit(x, rest, k);
    if k < |x| {
      PrefixTruncated(item, vs[0], k);
    } else {
      RoundTrip(item, vs[0], rest[..k - |x|]);
      PrefixTruncatedAll(item, vs[1..], k - |x|);
    }
  }
}
