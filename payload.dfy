/** Decoding the scattering payload of `CALC:DATA? SDAT`: the reply is
    stripped of trailing whitespace, split at commas, every token converted
    to a number, and tokens 2k and 2k+1 paired into the k-th complex value.
    Number parsing itself is a parameter (`toFloat`), standing for numpy's
    float conversion; `None` is the ValueError it raises. */
module Payload {
  import opened Wrappers
  import opened Text
  import opened Bus

  datatype Complex = Complex(re: real, im: real)

  /** `reply.rstrip().split(',')` */
  function Tokens(reply: string): (t: seq<string>)
    ensures |t| >= 1
  {
    Split(RStrip(reply), ',')
  }

  /** Convert every token; one failure fails the whole array. */
  function ParseAll(tokens: seq<string>, toFloat: string -> Option<real>): (r: Option<seq<real>>)
    ensures r.Some? <==> forall i :: 0 <= i < |tokens| ==> toFloat(tokens[i]).Some?
    ensures r.Some? ==> |r.value| == |tokens|
    ensures r.Some? ==> forall i :: 0 <= i < |tokens| ==> r.value[i] == toFloat(tokens[i]).value
  {
    if tokens == [] then Some([])
    else match toFloat(tokens[0])
      case None => None
      case Some(x) =>
        match ParseAll(tokens[1..], toFloat)
        case None => None
        case Some(xs) => Some([x] + xs)
  }

  /** numpy's `x[:-1:2] + 1j * x[1::2]`. */
  function Pair(xs: seq<real>): (zs: seq<Complex>)
  {
    if |xs| < 2 then [] else [Complex(xs[0], xs[1])] + Pair(xs[2..])
  }

  /** The length law and the pairing: `|xs| / 2` values (an odd last value is
      dropped), the k-th made of values 2k and 2k+1. */
  lemma {:induction false} PairLaw(xs: seq<real>)
    ensures |Pair(xs)| == |xs| / 2
    ensures forall k :: 0 <= k < |xs| / 2 ==> Pair(xs)[k] == Complex(xs[2 * k], xs[2 * k + 1])
  {
    if |xs| >= 2 {
      PairLaw(xs[2..]);
      forall k | 1 <= k < |xs| / 2 ensures Pair(xs)[k] == Complex(xs[2 * k], xs[2 * k + 1]) {
        assert Pair(xs)[k] == Pair(xs[2..])[k - 1];
        assert xs[2..][2 * (k - 1)] == xs[2 * k];
      }
    }
  }

  /** The values in transfer order: real, imaginary, real, imaginary, … */
  function Flatten(zs: seq<Complex>): (xs: seq<real>)
    ensures |xs| == 2 * |zs|
  {
    if zs == [] then [] else [zs[0].re, zs[0].im] + Flatten(zs[1..])
  }

  /** Pairing undoes flattening. */
  lemma {:induction false} PairFlatten(zs: seq<Complex>)
    ensures Pair(Flatten(zs)) == zs
  {
    if zs != [] {
      PairFlatten(zs[1..]);
      assert Flatten(zs)[2..] == Flatten(zs[1..]);
    }
  }

  /** Flattening a pairing gives back the values, but for an odd last one. */
  lemma {:induction false} FlattenPair(xs: seq<real>)
    ensures Flatten(Pair(xs)) == xs[..|xs| / 2 * 2]
  {
    if |xs| >= 2 {
      FlattenPair(xs[2..]);
      assert xs[2..][..|xs[2..]| / 2 * 2] == xs[2..|xs| / 2 * 2];
    }
  }

  /** The decode of `query_scattering_values` / `ext_query_values`. */
  function Decode(reply: string, toFloat: string -> Option<real>): (r: Result<seq<Complex>, Error>)
  {
    match ParseAll(Tokens(reply), toFloat)
    case None => Err(ValueError)
    case Some(xs) => Ok(Pair(xs))
  }

  /** Decoding fails (ValueError) exactly when some token does not parse;
      otherwise it yields floor(n / 2) values for n tokens, value k built
      from tokens 2k and 2k+1. */
  lemma DecodeLaw(reply: string, toFloat: string -> Option<real>)
    ensures var t := Tokens(reply); var r := Decode(reply, toFloat);
      && (r.Ok? <==> forall i :: 0 <= i < |t| ==> toFloat(t[i]).Some?)
      && (r.Err? ==> r.error == ValueError)
      && (r.Ok? ==> |r.value| == |t| / 2)
      && (r.Ok? ==> forall k :: 0 <= k < |t| / 2 ==>
            r.value[k] == Complex(toFloat(t[2 * k]).value, toFloat(t[2 * k + 1]).value))
  {
    var p := ParseAll(Tokens(reply), toFloat);
    if p.Some? {
      PairLaw(p.value);
    }
  }

  /** Sending the values of `zs` in transfer order as comma-separated tokens
      that the parser reads back decodes to `zs` again: the decoder inverts
      the instrument's encoding. Tokens hold no comma and the last does not
      end in whitespace. */
  lemma DecodeRoundTrip(zs: seq<Complex>, tokens: seq<string>, toFloat: string -> Option<real>)
    requires tokens != [] && forall k :: 0 <= k < |tokens| ==> ',' !in tokens[k]
    requires |tokens[|tokens| - 1]| > 0 && !IsSpace(tokens[|tokens| - 1][|tokens[|tokens| - 1]| - 1])
    requires ParseAll(tokens, toFloat) == Some(Flatten(zs))
    ensures Decode(Join(tokens, ","), toFloat) == Ok(zs)
  {
    var reply := Join(tokens, ",");
    JoinEndsWith(tokens, ",");
    var last := tokens[|tokens| - 1];
    assert reply[|reply| - 1] == reply[|reply| - |last|..][|last| - 1] == last[|last| - 1];
    assert RStrip(reply) == reply;
    SplitJoin(tokens, ',');
    assert Tokens(reply) == tokens;
    PairFlatten(zs);
  }

  /** A join ends with the last part. */
  lemma {:induction false} JoinEndsWith(parts: seq<string>, sep: string)
    requires parts != []
    ensures |Join(parts, sep)| >= |parts[|parts| - 1]|
    ensures Join(parts, sep)[|Join(parts, sep)| - |parts[|parts| - 1]|..] == parts[|parts| - 1]
  {
    if |parts| > 1 {
      JoinEndsWith(parts[1..], sep);
    }
  }

  /** A worked decode: "1,2,3,4" gives (1+2i), (3+4i). */
  lemma DecodeExample(reply: string, toFloat: string -> Option<real>)
    requires reply == "1,2,3,4"
    requires toFloat("1") == Some(1.0) && toFloat("2") == Some(2.0)
    requires toFloat("3") == Some(3.0) && toFloat("4") == Some(4.0)
    ensures Decode(reply, toFloat) == Ok([Complex(1.0, 2.0), Complex(3.0, 4.0)])
  {
    var t := ["1", "2", "3", "4"];
    assert reply == Join(t, ",");
    SplitJoin(t, ',');
    assert RStrip(reply) == reply;
    assert Tokens(reply) == t;
    DecodeLaw(reply, toFloat);
    var r := Decode(reply, toFloat);
    assert r.Ok?;
    assert r.value == [Complex(1.0, 2.0), Complex(3.0, 4.0)];
  }

  /** With an odd token count the last token must still parse, and is dropped. */
  lemma DecodeOddExample(reply: string, toFloat: string -> Option<real>)
    requires reply == "1,2,3"
    requires toFloat("1") == Some(1.0) && toFloat("2") == Some(2.0) && toFloat("3") == Some(3.0)
    ensures Decode(reply, toFloat) == Ok([Complex(1.0, 2.0)])
  {
    var t := ["1", "2", "3"];
    assert reply == Join(t, ",");
    SplitJoin(t, ',');
    assert RStrip(reply) == reply;
    assert Tokens(reply) == t;
    DecodeLaw(reply, toFloat);
    var r := Decode(reply, toFloat);
    assert r.Ok?;
    assert r.value == [Complex(1.0, 2.0)];
  }
}
