/** The serialization format: little-endian integers, length-prefixed vectors, tagged
    options and results, and concatenated tuples. A codec is a pair of functions; it is
    lawful when they are inverse to each other, in both directions. */
module Codec {
  import opened Primitives

  /** The `Slicable` implementation of a type: which values can be encoded, the bytes of a
      value, and the value at the front of an input with the rest of that input. */
  datatype Codec<!T> = Codec(valid: T -> bool, encode: T -> Bytes, decode: Bytes -> Option<(T, Bytes)>)

  /** Decoding what was encoded gives the value back and leaves the rest of the input; and
      whatever is decoded consumed exactly the encoding of the result. */
  ghost predicate Lawful<T(!new)>(c: Codec<T>) {
    && (forall x, rest :: c.valid(x) ==> c.decode(c.encode(x) + rest) == Some((x, rest)))
    && (forall input :: c.decode(input).Some? ==> Consumed(c, input, c.decode(input).value.0, c.decode(input).value.1))
  }

  ghost predicate Consumed<T>(c: Codec<T>, input: Bytes, x: T, rest: Bytes) {
    c.valid(x) && input == c.encode(x) + rest
  }

  // ---------- Integers ----------

  function Pow256(n: nat): nat {
    if n == 0 then 1 else 256 * Pow256(n - 1)
  }

  /** The `n` little-endian bytes of a number. */
  function LittleEndian(n: nat, x: nat): (b: Bytes)
    ensures |b| == n
  {
    if n == 0 then [] else [(x % 256) as byte] + LittleEndian(n - 1, x / 256)
  }

  function FromLittleEndian(b: Bytes): nat {
    if b == [] then 0 else b[0] as nat + 256 * FromLittleEndian(b[1..])
  }

  lemma {:induction false} IntegerRoundTrip(n: nat, x: nat)
    requires x < Pow256(n)
    ensures FromLittleEndian(LittleEndian(n, x)) == x
  {
    if n > 0 {
      IntegerRoundTrip(n - 1, x / 256);
      assert LittleEndian(n, x)[1..] == LittleEndian(n - 1, x / 256);
    }
  }

  lemma LowByte(low: nat, high: nat)
    requires low < 256
    ensures (low + 256 * high) % 256 == low && (low + 256 * high) / 256 == high
  {
  }

  lemma {:induction false} BytesRoundTrip(b: Bytes)
    ensures FromLittleEndian(b) < Pow256(|b|)
    ensures LittleEndian(|b|, FromLittleEndian(b)) == b
  {
    if b != [] {
      BytesRoundTrip(b[1..]);
      LowByte(b[0] as nat, FromLittleEndian(b[1..]));
      assert b == [b[0]] + b[1..];
    }
  }

  /** An unsigned integer of `n` bytes. */
  function UintCodec(n: nat): Codec<nat> {
    Codec(x => x < Pow256(n),
          x => LittleEndian(n, x),
          input => if |input| < n then None else Some((FromLittleEndian(input[..n]), input[n..])))
  }

  lemma UintLawful(n: nat)
    ensures Lawful(UintCodec(n))
  {
    var c := UintCodec(n);
    forall x: nat, rest | c.valid(x) ensures c.decode(c.encode(x) + rest) == Some((x, rest)) {
      IntegerRoundTrip(n, x);
      assert (LittleEndian(n, x) + rest)[..n] == LittleEndian(n, x);
    }
    forall input | c.decode(input).Some? ensures Consumed(c, input, c.decode(input).value.0, c.decode(input).value.1) {
      BytesRoundTrip(input[..n]);
    }
  }

  /** A signed number as an unsigned one of `n` bytes, in two's complement. */
  function Wrapped(n: nat, x: int): nat {
    if x >= 0 then x else if x + Pow256(n) >= 0 then x + Pow256(n) else 0
  }

  function Unwrapped(n: nat, u: nat): int {
    if 2 * u < Pow256(n) then u else u - Pow256(n)
  }

  predicate InRange(n: nat, x: int) {
    0 <= 2 * x + Pow256(n) < 2 * Pow256(n)
  }

  /** A signed integer of `n` bytes. */
  function IntCodec(n: nat): Codec<int> {
    Codec(x => InRange(n, x),
          x => LittleEndian(n, Wrapped(n, x)),
          input => match UintCodec(n).decode(input)
            case None => None
            case Some(u) => Some((Unwrapped(n, u.0), u.1)))
  }

  lemma WrappedRoundTrip(n: nat, x: int)
    requires InRange(n, x)
    ensures Wrapped(n, x) < Pow256(n) && Unwrapped(n, Wrapped(n, x)) == x
  {
  }

  lemma UnwrappedRoundTrip(n: nat, u: nat)
    requires u < Pow256(n)
    ensures InRange(n, Unwrapped(n, u)) && Wrapped(n, Unwrapped(n, u)) == u
  {
  }

  lemma IntLawful(n: nat)
    ensures Lawful(IntCodec(n))
  {
    var c, d := IntCodec(n), UintCodec(n);
    UintLawful(n);
    forall x: int, rest | c.valid(x) ensures c.decode(c.encode(x) + rest) == Some((x, rest)) {
      WrappedRoundTrip(n, x);
      assert d.decode(d.encode(Wrapped(n, x)) + rest) == Some((Wrapped(n, x), rest));
    }
    forall input | c.decode(input).Some? ensures Consumed(c, input, c.decode(input).value.0, c.decode(input).value.1) {
      var u := d.decode(input).value;
      assert Consumed(d, input, u.0, u.1);
      UnwrappedRoundTrip(n, u.0);
    }
  }

  /** A byte array of fixed length. */
  function FixedCodec(n: nat): Codec<Bytes> {
    Codec(x => |x| == n, x => x, input => if |input| < n then None else Some((input[..n], input[n..])))
  }

  lemma FixedLawful(n: nat)
    ensures Lawful(FixedCodec(n))
  {
    assert forall x: Bytes, rest: Bytes :: |x| == n ==> (x + rest)[..n] == x && (x + rest)[n..] == rest;
  }

  const UNIT: Codec<()> := Codec(x => true, x => [], input => Some(((), input)))

  // ---------- Tuples ----------

  function PairCodec<A, B>(a: Codec<A>, b: Codec<B>): Codec<(A, B)> {
    Codec((p: (A, B)) => a.valid(p.0) && b.valid(p.1),
          (p: (A, B)) => a.encode(p.0) + b.encode(p.1),
          input => match a.decode(input)
            case None => None
            case Some(x) =>
              (match b.decode(x.1)
               case None => None
               case Some(y) => Some(((x.0, y.0), y.1))))
  }

  lemma PairLawful<A(!new), B(!new)>(a: Codec<A>, b: Codec<B>)
    requires Lawful(a) && Lawful(b)
    ensures Lawful(PairCodec(a, b))
  {
    var c := PairCodec(a, b);
    forall p: (A, B), rest | c.valid(p) ensures c.decode(c.encode(p) + rest) == Some((p, rest)) {
      assert c.encode(p) + rest == a.encode(p.0) + (b.encode(p.1) + rest);
    }
    forall input | c.decode(input).Some? ensures Consumed(c, input, c.decode(input).value.0, c.decode(input).value.1) {
      var x := a.decode(input).value;
      var y := b.decode(x.1).value;
      assert Consumed(a, input, x.0, x.1) && Consumed(b, x.1, y.0, y.1);
      assert input == a.encode(x.0) + (b.encode(y.0) + y.1);
    }
  }

  /** A codec for a type in one-to-one correspondence with an encoded one: wrapper structs
      and records written as tuples. */
  function MapCodec<A, B>(c: Codec<A>, to: A -> B, from: B -> A): Codec<B> {
    Codec((y: B) => c.valid(from(y)), (y: B) => c.encode(from(y)),
          input => match c.decode(input)
            case None => None
            case Some(x) => Some((to(x.0), x.1)))
  }

  lemma MapLawful<A(!new), B(!new)>(c: Codec<A>, to: A -> B, from: B -> A)
    requires Lawful(c)
    requires forall x :: c.valid(x) ==> from(to(x)) == x
    requires forall y :: to(from(y)) == y
    ensures Lawful(MapCodec(c, to, from))
  {
    var d := MapCodec(c, to, from);
    forall input | d.decode(input).Some? ensures Consumed(d, input, d.decode(input).value.0, d.decode(input).value.1) {
      var x := c.decode(input).value;
      assert Consumed(c, input, x.0, x.1);
    }
  }

  // ---------- Vectors ----------

  function EncodeAll<T>(c: Codec<T>, xs: seq<T>): Bytes {
    if xs == [] then [] else c.encode(xs[0]) + EncodeAll(c, xs[1..])
  }

  function DecodeMany<T>(c: Codec<T>, n: nat, input: Bytes): Option<(seq<T>, Bytes)> {
    if n == 0 then Some(([], input))
    else match c.decode(input)
      case None => None
      case Some(x) =>
        (match DecodeMany(c, n - 1, x.1)
         case None => None
         case Some(xs) => Some(([x.0] + xs.0, xs.1)))
  }

  predicate AllValid<T>(c: Codec<T>, xs: seq<T>) {
    forall i :: 0 <= i < |xs| ==> c.valid(xs[i])
  }

  lemma {:induction false} DecodeManyEncoded<T(!new)>(c: Codec<T>, xs: seq<T>, rest: Bytes)
    requires Lawful(c) && AllValid(c, xs)
    ensures DecodeMany(c, |xs|, EncodeAll(c, xs) + rest) == Some((xs, rest))
  {
    if xs == [] {
      assert [] + rest == rest;
    } else {
      DecodeManyEncoded(c, xs[1..], rest);
      assert EncodeAll(c, xs) + rest == c.encode(xs[0]) + (EncodeAll(c, xs[1..]) + rest);
      assert c.decode(c.encode(xs[0]) + (EncodeAll(c, xs[1..]) + rest)) == Some((xs[0], EncodeAll(c, xs[1..]) + rest));
      assert xs == [xs[0]] + xs[1..];
    }
  }

  lemma {:induction false} DecodeManyConsumed<T(!new)>(c: Codec<T>, n: nat, input: Bytes)
    requires Lawful(c) && DecodeMany(c, n, input).Some?
    ensures var (xs, rest) := DecodeMany(c, n, input).value;
            |xs| == n && AllValid(c, xs) && input == EncodeAll(c, xs) + rest
  {
    if n == 0 {
      assert input == [] + input;
    } else {
      var x := c.decode(input).value;
      assert Consumed(c, input, x.0, x.1);
      DecodeManyConsumed(c, n - 1, x.1);
      var tail := DecodeMany(c, n - 1, x.1).value;
      assert ([x.0] + tail.0)[1..] == tail.0;
      assert input == c.encode(x.0) + (EncodeAll(c, tail.0) + tail.1) == (c.encode(x.0) + EncodeAll(c, tail.0)) + tail.1;
    }
  }

  /** Reads a 32-bit count. */
  function ReadCount(input: Bytes): Option<(nat, Bytes)> {
    if |input| < 4 then None else Some((FromLittleEndian(input[..4]), input[4..]))
  }

  /** `Vec<T>`: a 32-bit count and the elements. Longer vectors are refused by an assertion. */
  function VecCodec<T>(c: Codec<T>): Codec<seq<T>> {
    Codec((xs: seq<T>) => |xs| < Pow256(4) && AllValid(c, xs),
          (xs: seq<T>) => LittleEndian(4, |xs|) + EncodeAll(c, xs),
          input => match ReadCount(input)
            case None => None
            case Some(len) => DecodeMany(c, len.0, len.1))
  }

  /** Any 32-bit count followed by the rest of an input reads back as that count. */
  lemma CountRoundTrip(n: nat, rest: Bytes)
    requires n < Pow256(4)
    ensures ReadCount(LittleEndian(4, n) + rest) == Some((n, rest))
  {
    IntegerRoundTrip(4, n);
    assert (LittleEndian(4, n) + rest)[..4] == LittleEndian(4, n);
    assert (LittleEndian(4, n) + rest)[4..] == rest;
  }

  lemma CountConsumed(input: Bytes)
    requires ReadCount(input).Some?
    ensures var (n, rest) := ReadCount(input).value; n < Pow256(4) && input == LittleEndian(4, n) + rest
  {
    BytesRoundTrip(input[..4]);
  }

  lemma VecRoundTrip<T(!new)>(c: Codec<T>, xs: seq<T>, rest: Bytes)
    requires Lawful(c) && VecCodec(c).valid(xs)
    ensures VecCodec(c).decode(VecCodec(c).encode(xs) + rest) == Some((xs, rest))
  {
    var body := EncodeAll(c, xs) + rest;
    assert VecCodec(c).encode(xs) + rest == LittleEndian(4, |xs|) + body;
    CountRoundTrip(|xs|, body);
    DecodeManyEncoded(c, xs, rest);
  }

  lemma VecConsumed<T(!new)>(c: Codec<T>, input: Bytes)
    requires Lawful(c) && VecCodec(c).decode(input).Some?
    ensures Consumed(VecCodec(c), input, VecCodec(c).decode(input).value.0, VecCodec(c).decode(input).value.1)
  {
    CountConsumed(input);
    var (n, body) := ReadCount(input).value;
    DecodeManyConsumed(c, n, body);
    var (xs, rest) := DecodeMany(c, n, body).value;
    assert LittleEndian(4, n) + (EncodeAll(c, xs) + rest) == (LittleEndian(4, n) + EncodeAll(c, xs)) + rest;
  }

  lemma VecLawful<T(!new)>(c: Codec<T>)
    requires Lawful(c)
    ensures Lawful(VecCodec(c))
  {
    forall xs, rest | VecCodec(c).valid(xs) ensures VecCodec(c).decode(VecCodec(c).encode(xs) + rest) == Some((xs, rest)) {
      VecRoundTrip(c, xs, rest);
    }
    forall input | VecCodec(c).decode(input).Some?
      ensures Consumed(VecCodec(c), input, VecCodec(c).decode(input).value.0, VecCodec(c).decode(input).value.1)
    {
      VecConsumed(c, input);
    }
  }

  /** `Vec<u8>`: a 32-bit length and the bytes. */
  function BytesCodec(): Codec<Bytes> {
    Codec((b: Bytes) => |b| < Pow256(4),
          (b: Bytes) => LittleEndian(4, |b|) + b,
          input => match ReadCount(input)
            case None => None
            case Some(len) => if |len.1| < len.0 then None else Some((len.1[..len.0], len.1[len.0..])))
  }

  lemma StringRoundTrip(b: Bytes, rest: Bytes)
    requires |b| < Pow256(4)
    ensures BytesCodec().decode(BytesCodec().encode(b) + rest) == Some((b, rest))
  {
    assert LittleEndian(4, |b|) + b + rest == LittleEndian(4, |b|) + (b + rest);
    CountRoundTrip(|b|, b + rest);
    assert (b + rest)[..|b|] == b && (b + rest)[|b|..] == rest;
  }

  lemma StringConsumed(input: Bytes)
    requires BytesCodec().decode(input).Some?
    ensures Consumed(BytesCodec(), input, BytesCodec().decode(input).value.0, BytesCodec().decode(input).value.1)
  {
    CountConsumed(input);
    var (n, body) := ReadCount(input).value;
    assert input == LittleEndian(4, n) + body && body == body[..n] + body[n..];
    assert LittleEndian(4, n) + (body[..n] + body[n..]) == LittleEndian(4, n) + body[..n] + body[n..];
  }

  lemma BytesLawful()
    ensures Lawful(BytesCodec())
  {
    var v := BytesCodec();
    forall b: Bytes, rest | v.valid(b) ensures v.decode(v.encode(b) + rest) == Some((b, rest)) {
      StringRoundTrip(b, rest);
    }
    forall input | v.decode(input).Some? ensures Consumed(v, input, v.decode(input).value.0, v.decode(input).value.1) {
      StringConsumed(input);
    }
  }

  function Prepend<T>(xs: seq<T>, r: Option<(seq<T>, Bytes)>): Option<(seq<T>, Bytes)> {
    match r case None => None case Some(ys) => Some((xs + ys.0, ys.1))
  }

  lemma PrependStep<T>(xs: seq<T>, c: Codec<T>, n: nat, input: Bytes)
    requires n > 0
    ensures Prepend(xs, DecodeMany(c, n, input))
         == match c.decode(input) case None => None case Some(x) => Prepend(xs + [x.0], DecodeMany(c, n - 1, x.1))
  {
    if c.decode(input).Some? {
      var x := c.decode(input).value;
      var tail := DecodeMany(c, n - 1, x.1);
      assert tail.Some? ==> xs + ([x.0] + tail.value.0) == (xs + [x.0]) + tail.value.0;
    }
  }

  /** Decoding a vector in a loop. */
  method DecodeVec<T>(c: Codec<T>, input: Bytes) returns (r: Option<(seq<T>, Bytes)>)
    ensures r == VecCodec(c).decode(input)
  {
    var len := ReadCount(input);
    if len.None? {
      return None;
    }
    var xs: seq<T> := [];
    var (n, rest) := len.value;
    ghost var whole := DecodeMany(c, n, rest);
    assert whole.Some? ==> [] + whole.value.0 == whole.value.0;
    for i := 0 to n
      invariant whole == Prepend(xs, DecodeMany(c, n - i, rest))
    {
      PrependStep(xs, c, n - i, rest);
      match c.decode(rest) {
        case None =>
          return None;
        case Some(x) =>
          xs := xs + [x.0];
          rest := x.1;
      }
    }
    assert xs + [] == xs;
    r := Some((xs, rest));
  }

  /** Encoding a vector by appending to a buffer. */
  method EncodeVec<T>(c: Codec<T>, xs: seq<T>) returns (r: Bytes)
    requires |xs| < Pow256(4)
    ensures r == VecCodec(c).encode(xs)
  {
    r := LittleEndian(4, |xs|);
    for i := 0 to |xs|
      invariant r + EncodeAll(c, xs[i..]) == LittleEndian(4, |xs|) + EncodeAll(c, xs)
    {
      assert xs[i..][1..] == xs[i + 1..];
      r := r + c.encode(xs[i]);
    }
    assert r + [] == r;
  }

  // ---------- Tagged unions ----------

  /** Prefixes a one-byte tag. */
  function Tagged<T>(tag: byte, c: Codec<T>): Codec<T> {
    Codec(c.valid, x => [tag] + c.encode(x),
          input => if input == [] || input[0] != tag then None else c.decode(input[1..]))
  }

  lemma TaggedLawful<T(!new)>(tag: byte, c: Codec<T>)
    requires Lawful(c)
    ensures Lawful(Tagged(tag, c)) && Heads(Tagged(tag, c), {tag})
  {
    var t := Tagged(tag, c);
    forall x, rest | t.valid(x) ensures t.decode(t.encode(x) + rest) == Some((x, rest)) {
      assert (t.encode(x) + rest)[1..] == c.encode(x) + rest;
    }
    forall input | t.decode(input).Some? ensures Consumed(t, input, t.decode(input).value.0, t.decode(input).value.1) {
      assert Consumed(c, input[1..], t.decode(input).value.0, t.decode(input).value.1);
      assert input == [input[0]] + input[1..];
    }
  }

  datatype Choice<A, B> = First(a: A) | Second(b: B)

  /** Every successful decoding starts with one of these tags. */
  ghost predicate Heads<T(!new)>(c: Codec<T>, tags: set<byte>) {
    forall input :: c.decode(input).Some? ==> input != [] && input[0] in tags
  }

  /** Dispatch on the tag: at most one of the two decoders can accept an input. */
  function ChoiceCodec<A, B>(a: Codec<A>, b: Codec<B>): Codec<Choice<A, B>> {
    Codec((x: Choice<A, B>) => match x case First(y) => a.valid(y) case Second(z) => b.valid(z),
          (x: Choice<A, B>) => match x case First(y) => a.encode(y) case Second(z) => b.encode(z),
          input => match a.decode(input)
            case Some(y) => Some((First(y.0), y.1))
            case None =>
              (match b.decode(input)
               case Some(z) => Some((Second(z.0), z.1))
               case None => None))
  }

  lemma ChoiceLawful<A(!new), B(!new)>(a: Codec<A>, b: Codec<B>, tagsA: set<byte>, tagsB: set<byte>)
    requires Lawful(a) && Lawful(b) && Heads(a, tagsA) && Heads(b, tagsB) && tagsA !! tagsB
    ensures Lawful(ChoiceCodec(a, b)) && Heads(ChoiceCodec(a, b), tagsA + tagsB)
  {
    var c := ChoiceCodec(a, b);
    forall x: Choice<A, B>, rest | c.valid(x) ensures c.decode(c.encode(x) + rest) == Some((x, rest)) {
      if x.Second? {
        assert b.decode(b.encode(x.b) + rest) == Some((x.b, rest));
        assert a.decode(b.encode(x.b) + rest).None?;
      }
    }
    forall input | c.decode(input).Some? ensures Consumed(c, input, c.decode(input).value.0, c.decode(input).value.1) {
      if a.decode(input).Some? {
        assert Consumed(a, input, a.decode(input).value.0, a.decode(input).value.1);
      } else {
        assert Consumed(b, input, b.decode(input).value.0, b.decode(input).value.1);
      }
    }
  }

  lemma UnitLawful()
    ensures Lawful(UNIT)
  {
    forall x: (), rest: Bytes ensures UNIT.decode(UNIT.encode(x) + rest) == Some((x, rest)) {
      assert x == () && [] + rest == rest;
    }
    assert forall input: Bytes :: input == [] + input;
  }

  function ToOption<T>(x: Choice<(), T>): Option<T> {
    match x case First(_) => None case Second(t) => Some(t)
  }

  function FromOption<T>(o: Option<T>): Choice<(), T> {
    match o case None => First(()) case Some(t) => Second(t)
  }

  function OptionCodec<T>(c: Codec<T>): Codec<Option<T>> {
    MapCodec(ChoiceCodec(Tagged(0, UNIT), Tagged(1, c)), ToOption, FromOption)
  }

  lemma OptionLawful<T(!new)>(c: Codec<T>)
    requires Lawful(c)
    ensures Lawful(OptionCodec(c))
  {
    UnitLawful();
    TaggedLawful(0, UNIT);
    TaggedLawful(1, c);
    ChoiceLawful(Tagged(0, UNIT), Tagged(1, c), {0}, {1});
    assert forall x: Choice<(), T> :: FromOption(ToOption(x)) == x by {
      forall x: Choice<(), T> ensures FromOption(ToOption(x)) == x {
        assert x.First? ==> x.a == ();
      }
    }
    MapLawful(ChoiceCodec(Tagged(0, UNIT), Tagged(1, c)), ToOption, FromOption);
  }

  function ResultCodec<T, E>(t: Codec<T>, e: Codec<E>): Codec<Choice<T, E>> {
    ChoiceCodec(Tagged(0, t), Tagged(1, e))
  }

  lemma ResultLawful<T(!new), E(!new)>(t: Codec<T>, e: Codec<E>)
    requires Lawful(t) && Lawful(e)
    ensures Lawful(ResultCodec(t, e))
  {
    TaggedLawful(0, t);
    TaggedLawful(1, e);
    ChoiceLawful(Tagged(0, t), Tagged(1, e), {0}, {1});
  }

  /** Distinct values have distinct encodings, and no encoding is a proper prefix of another. */
  lemma LawfulIsPrefixFree<T(!new)>(c: Codec<T>, x: T, y: T, more: Bytes)
    requires Lawful(c) && c.valid(x) && c.valid(y) && c.encode(x) + more == c.encode(y)
    ensures x == y && more == []
  {
    assert c.decode(c.encode(x) + more) == Some((x, more));
    assert c.encode(y) + [] == c.encode(y);
    assert c.decode(c.encode(y) + []) == Some((y, []));
  }

  // ---------- The bytes ----------

  lemma DivideTwice(x: nat, p: nat)
    requires p > 0
    ensures x / 256 / p == x / (256 * p)
  {
    var q, r := x / 256, x % 256;
    var a, b := q / p, q % p;
    assert x == 256 * q + r && q == p * a + b;
    assert 256 * (p * a) == 256 * p * a;
    assert x == 256 * p * a + (256 * b + r);
    assert 256 * b + r < 256 * p;
    QuotientOf(x, 256 * p, a, 256 * b + r);
  }

  lemma QuotientOf(x: nat, d: nat, q: nat, r: nat)
    requires d > 0 && r < d && x == d * q + r
    ensures x / d == q
  {
    var q' := x / d;
    assert x == d * q' + x % d;
    assert q' < q ==> d * (q' + 1) <= d * q;
    assert q < q' ==> d * (q + 1) <= d * q';
  }

  lemma {:induction false} PowerIsPositive(n: nat)
    ensures Pow256(n) > 0
  {
    if n > 0 {
      PowerIsPositive(n - 1);
    }
  }

  /** Byte `i` of a number is its digit of weight 256^i. */
  lemma {:induction false} IntegerByte(n: nat, x: nat, i: nat)
    requires i < n
    ensures Pow256(i) > 0 && LittleEndian(n, x)[i] as nat == x / Pow256(i) % 256
  {
    PowerIsPositive(i);
    if i > 0 {
      IntegerByte(n - 1, x / 256, i - 1);
      DivideTwice(x, Pow256(i - 1));
    }
  }

  lemma PairBytes<A, B>(a: Codec<A>, b: Codec<B>, p: (A, B))
    ensures PairCodec(a, b).encode(p) == a.encode(p.0) + b.encode(p.1)
  {
  }

  lemma MapBytes<A, B>(c: Codec<A>, to: A -> B, from: B -> A, y: B)
    ensures MapCodec(c, to, from).encode(y) == c.encode(from(y))
  {
  }

  lemma ChoiceBytes<A, B>(a: Codec<A>, b: Codec<B>, x: Choice<A, B>)
    ensures x.First? ==> ChoiceCodec(a, b).encode(x) == a.encode(x.a)
    ensures x.Second? ==> ChoiceCodec(a, b).encode(x) == b.encode(x.b)
  {
  }

  lemma TaggedBytes<T>(tag: byte, c: Codec<T>, x: T)
    ensures Tagged(tag, c).encode(x) == [tag] + c.encode(x)
  {
  }

  /** Three and four fields, one after the other. */
  lemma TripleBytes<A, B, C>(a: Codec<A>, b: Codec<B>, c: Codec<C>, t: (A, (B, C)))
    ensures PairCodec(a, PairCodec(b, c)).encode(t) == a.encode(t.0) + (b.encode(t.1.0) + c.encode(t.1.1))
  {
    PairBytes(a, PairCodec(b, c), t);
    PairBytes(b, c, t.1);
  }

  lemma QuadBytes<A, B, C, D>(a: Codec<A>, b: Codec<B>, c: Codec<C>, d: Codec<D>, t: (A, (B, (C, D))))
    ensures PairCodec(a, PairCodec(b, PairCodec(c, d))).encode(t) == a.encode(t.0) + (b.encode(t.1.0) + (c.encode(t.1.1.0) + d.encode(t.1.1.1)))
  {
    PairBytes(a, PairCodec(b, PairCodec(c, d)), t);
    TripleBytes(b, c, d, t.1);
  }

  lemma OptionBytes<T>(c: Codec<T>, o: Option<T>)
    ensures o.None? ==> OptionCodec(c).encode(o) == [0]
    ensures o.Some? ==> OptionCodec(c).encode(o) == [1] + c.encode(o.value)
  {
    var none, some := Tagged(0, UNIT), Tagged(1, c);
    MapBytes(ChoiceCodec(none, some), ToOption, FromOption, o);
    ChoiceBytes(none, some, FromOption(o));
    TaggedBytes(0, UNIT, ());
    if o.Some? {
      TaggedBytes(1, c, o.value);
    }
  }

  lemma ResultBytes<T, E>(t: Codec<T>, e: Codec<E>, r: Choice<T, E>)
    ensures r.First? ==> ResultCodec(t, e).encode(r) == [0] + t.encode(r.a)
    ensures r.Second? ==> ResultCodec(t, e).encode(r) == [1] + e.encode(r.b)
  {
    ChoiceBytes(Tagged(0, t), Tagged(1, e), r);
    if r.First? {
      TaggedBytes(0, t, r.a);
    } else {
      TaggedBytes(1, e, r.b);
    }
  }

  /** A vector is its length in four bytes, then its elements one after the other. */
  lemma VecBytes<T>(c: Codec<T>, xs: seq<T>, x: T)
    ensures VecCodec(c).encode([]) == [0, 0, 0, 0]
    ensures |VecCodec(c).encode(xs)| >= 4 && VecCodec(c).encode(xs)[..4] == LittleEndian(4, |xs|)
    ensures VecCodec(c).encode(xs + [x])[4..] == VecCodec(c).encode(xs)[4..] + c.encode(x)
  {
    assert LittleEndian(4, 0) == [0, 0, 0, 0];
    EncodeAllSnoc(c, xs, x);
    assert VecCodec(c).encode(xs)[4..] == EncodeAll(c, xs) && VecCodec(c).encode(xs + [x])[4..] == EncodeAll(c, xs + [x]);
  }

  lemma VecIsCountAndAll<T>(c: Codec<T>, xs: seq<T>)
    ensures VecCodec(c).encode(xs) == LittleEndian(4, |xs|) + EncodeAll(c, xs)
  {
  }

  lemma {:induction false} EncodeAllSnoc<T>(c: Codec<T>, xs: seq<T>, x: T)
    ensures EncodeAll(c, xs + [x]) == EncodeAll(c, xs) + c.encode(x)
  {
    if xs == [] {
      assert [] + [x] == [x] && [x][1..] == [];
      assert EncodeAll(c, [x]) == c.encode(x) + [];
    } else {
      EncodeAllSnoc(c, xs[1..], x);
      assert (xs + [x])[1..] == xs[1..] + [x];
      assert c.encode(xs[0]) + (EncodeAll(c, xs[1..]) + c.encode(x)) == (c.encode(xs[0]) + EncodeAll(c, xs[1..])) + c.encode(x);
    }
  }
}
