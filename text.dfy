/** The few Python string operations the instrument session relies on:
    `str.rstrip`, `str.lower`, `in` on strings, `str.split`, `str.join`,
    `int(str)` and `str(int)`. Whitespace is Python 3's; case folding and
    digits are ASCII only. */
module Text {
  import opened Wrappers

  /** The characters `str.isspace` accepts, so the ones `str.rstrip()`
      removes: tab to carriage return, the four information separators
      U+001C to U+001F, space, and the Unicode spaces. */
  predicate IsSpace(c: char) {
    || '\t' <= c <= '\r' || IsSeparator(c) || c == ' '
    || c == '\U{0085}' || c == '\U{00A0}' || c == '\U{1680}'
    || '\U{2000}' <= c <= '\U{200A}' || c == '\U{2028}' || c == '\U{2029}'
    || c == '\U{202F}' || c == '\U{205F}' || c == '\U{3000}'
  }

  /** The information separators U+001C to U+001F: whitespace to
      `str.rstrip()`, but refused by `int()` wherever they appear. */
  predicate IsSeparator(c: char) {
    '\U{001C}' <= c <= '\U{001F}'
  }

  /** `s.rstrip()`: the longest prefix of `s` that does not end in whitespace. */
  function RStrip(s: string): string
  {
    if s == [] || !IsSpace(s[|s| - 1]) then s else RStrip(s[..|s| - 1])
  }

  /** `rstrip` keeps a prefix, ends on a non-space, and drops only spaces. */
  lemma {:induction false} RStripLaw(s: string)
    ensures RStrip(s) <= s
    ensures RStrip(s) == [] || !IsSpace(RStrip(s)[|RStrip(s)| - 1])
    ensures forall i :: |RStrip(s)| <= i < |s| ==> IsSpace(s[i])
    decreases |s|
  {
    if s != [] && IsSpace(s[|s| - 1]) {
      RStripLaw(s[..|s| - 1]);
    }
  }

  /** `s.lstrip()`: the longest suffix of `s` that does not start with whitespace. */
  function LStrip(s: string): string
  {
    if s == [] || !IsSpace(s[0]) then s else LStrip(s[1..])
  }

  /** `lstrip` keeps a suffix, starts on a non-space, and drops only spaces. */
  lemma {:induction false} LStripLaw(s: string)
    ensures |LStrip(s)| <= |s| && LStrip(s) == s[|s| - |LStrip(s)|..]
    ensures LStrip(s) == [] || !IsSpace(LStrip(s)[0])
    ensures forall i :: 0 <= i < |s| - |LStrip(s)| ==> IsSpace(s[i])
    decreases |s|
  {
    if s != [] && IsSpace(s[0]) {
      LStripLaw(s[1..]);
    }
  }

  lemma RStripIdempotent(s: string)
    ensures RStrip(RStrip(s)) == RStrip(s)
  {
  }

  function LowerChar(c: char): char {
    if 'A' <= c <= 'Z' then (c as int - 'A' as int + 'a' as int) as char else c
  }

  /** `s.lower()` restricted to ASCII letters. */
  function Lower(s: string): string {
    seq(|s|, i requires 0 <= i < |s| => LowerChar(s[i]))
  }

  /** `part` occurs in `s` at index `i` or later. */
  predicate ContainsFrom(s: string, part: string, i: nat)
    decreases |s| - i
  {
    i <= |s| && (part <= s[i..] || ContainsFrom(s, part, i + 1))
  }

  /** Python's `part in s` on strings, searched from the start. */
  predicate Contains(s: string, part: string) {
    ContainsFrom(s, part, 0)
  }

  /** An occurrence at `i` is found by a search from any `k <= i`. */
  lemma {:induction false} ContainsFromAt(s: string, part: string, k: nat, i: nat)
    requires k <= i <= |s| && part <= s[i..]
    ensures ContainsFrom(s, part, k)
    decreases i - k
  {
    if k < i {
      ContainsFromAt(s, part, k + 1, i);
    }
  }

  /** A search from `k` that succeeds has found an occurrence at `k` or later. */
  lemma {:induction false} ContainsFromWitness(s: string, part: string, k: nat)
    requires ContainsFrom(s, part, k)
    ensures exists i :: k <= i <= |s| && part <= s[i..]
    decreases |s| - k
  {
    if !(part <= s[k..]) {
      ContainsFromWitness(s, part, k + 1);
    }
  }

  /** The search agrees with the definition of `in`: `part` is a prefix of
      some suffix of `s`. */
  lemma ContainsIff(s: string, part: string)
    ensures Contains(s, part) <==> exists i :: 0 <= i <= |s| && part <= s[i..]
  {
    if Contains(s, part) {
      ContainsFromWitness(s, part, 0);
    }
    if exists i :: 0 <= i <= |s| && part <= s[i..] {
      var i :| 0 <= i <= |s| && part <= s[i..];
      ContainsFromAt(s, part, 0, i);
    }
  }

  /** `sep.join(parts)`. */
  function Join(parts: seq<string>, sep: string): string
  {
    if parts == [] then ""
    else if |parts| == 1 then parts[0]
    else parts[0] + sep + Join(parts[1..], sep)
  }

  /** `s.split(sep)` for a one-character separator: always at least one piece,
      and the pieces never contain the separator. */
  function Split(s: string, sep: char): (r: seq<string>)
    ensures |r| >= 1
    ensures forall k :: 0 <= k < |r| ==> sep !in r[k]
  {
    if s == [] then [""]
    else
      var rest := Split(s[1..], sep);
      if s[0] == sep then [""] + rest else [[s[0]] + rest[0]] + rest[1..]
  }

  /** Joining the pieces of a split with the separator gives back the original string. */
  lemma {:induction false} JoinSplit(s: string, sep: char)
    ensures Join(Split(s, sep), [sep]) == s
  {
    if s != [] {
      var rest := Split(s[1..], sep);
      JoinSplit(s[1..], sep);
      if s[0] == sep {
        assert Split(s, sep) == [""] + rest;
        assert Join(Split(s, sep), [sep]) == "" + [sep] + Join(rest, [sep]);
      } else {
        var r := Split(s, sep);
        assert r == [[s[0]] + rest[0]] + rest[1..];
        if |rest| == 1 {
          assert Join(r, [sep]) == [s[0]] + rest[0];
        } else {
          assert r[1..] == rest[1..];
          assert Join(rest, [sep]) == rest[0] + [sep] + Join(rest[1..], [sep]);
          assert Join(r, [sep]) == [s[0]] + rest[0] + [sep] + Join(rest[1..], [sep]);
        }
      }
    }
  }

  /** Splitting a join gives back the parts, when no part contains the separator. */
  lemma {:induction false} SplitJoin(parts: seq<string>, sep: char)
    requires |parts| >= 1
    requires forall k :: 0 <= k < |parts| ==> sep !in parts[k]
    ensures Split(Join(parts, [sep]), sep) == parts
  {
    if |parts| == 1 {
      SplitPiece(parts[0], [], sep);
      assert parts[0] + [] == parts[0];
      assert Split([], sep) == [""];
    } else {
      SplitJoin(parts[1..], sep);
      var tail := [sep] + Join(parts[1..], [sep]);
      assert Join(parts, [sep]) == parts[0] + tail;
      assert Split(tail, sep) == [""] + parts[1..] by {
        assert tail[1..] == Join(parts[1..], [sep]);
      }
      SplitPiece(parts[0], tail, sep);
      assert parts[0] + "" == parts[0];
      assert [parts[0]] + parts[1..] == parts;
    }
  }

  /** Prefixing a separator-free piece extends the first piece of a split. */
  lemma {:induction false} SplitPiece(piece: string, s: string, sep: char)
    requires sep !in piece
    ensures Split(piece + s, sep) == [piece + Split(s, sep)[0]] + Split(s, sep)[1..]
  {
    if piece != [] {
      SplitPiece(piece[1..], s, sep);
      var whole := piece + s;
      assert whole[0] == piece[0] && piece[0] != sep;
      assert whole[1..] == piece[1..] + s;
      var rest := Split(whole[1..], sep);
      assert rest == [piece[1..] + Split(s, sep)[0]] + Split(s, sep)[1..];
      assert Split(whole, sep) == [[piece[0]] + rest[0]] + rest[1..];
      assert rest[1..] == Split(s, sep)[1..];
      assert [piece[0]] + (piece[1..] + Split(s, sep)[0]) == piece + Split(s, sep)[0];
    } else {
      assert piece + s == s && piece + Split(s, sep)[0] == Split(s, sep)[0];
      assert [Split(s, sep)[0]] + Split(s, sep)[1..] == Split(s, sep);
    }
  }

  /** The one-character strings of `s`: what Python iterates over when a
      string stands where a list of strings is expected. */
  function Chars(s: string): (r: seq<string>)
    ensures |r| == |s|
  {
    seq(|s|, i requires 0 <= i < |s| => [s[i]])
  }

  /** Joining the characters of `s` with a newline interleaves a newline
      between every two characters. */
  lemma {:induction false} JoinChars(s: string)
    requires |s| >= 1
    ensures |Join(Chars(s), "\n")| == 2 * |s| - 1
    ensures forall i :: 0 <= i < |s| ==> Join(Chars(s), "\n")[2 * i] == s[i]
    ensures forall i :: 0 <= i < |s| - 1 ==> Join(Chars(s), "\n")[2 * i + 1] == '\n'
  {
    if |s| > 1 {
      JoinChars(s[1..]);
      assert Chars(s)[1..] == Chars(s[1..]);
      var j := Join(Chars(s), "\n");
      assert j == [s[0]] + "\n" + Join(Chars(s[1..]), "\n");
      forall i | 1 <= i < |s| ensures j[2 * i] == s[i] {
        assert j[2 * i] == Join(Chars(s[1..]), "\n")[2 * (i - 1)];
      }
      forall i | 1 <= i < |s| - 1 ensures j[2 * i + 1] == '\n' {
        assert j[2 * i + 1] == Join(Chars(s[1..]), "\n")[2 * (i - 1) + 1];
      }
    }
  }

  predicate IsDigit(c: char) { '0' <= c <= '9' }

  predicate AllDigits(s: string) { forall i :: 0 <= i < |s| ==> IsDigit(s[i]) }

  function DigitValue(c: char): nat
    requires IsDigit(c)
  {
    c as int - '0' as int
  }

  function DigitChar(d: nat): char
    requires d < 10
  {
    (d + '0' as int) as char
  }

  /** The value of a string of decimal digits, most significant first. */
  function DigitsValue(s: string): nat
    requires AllDigits(s)
  {
    if s == [] then 0 else DigitsValue(s[..|s| - 1]) * 10 + DigitValue(s[|s| - 1])
  }

  /** `str(n)` for a natural number: its shortest decimal spelling. */
  function NatToString(n: nat): (r: string)
    ensures |r| >= 1 && AllDigits(r)
    ensures |r| > 1 ==> r[0] != '0'
  {
    if n < 10 then [DigitChar(n)] else NatToString(n / 10) + [DigitChar(n % 10)]
  }

  /** Reading back the decimal spelling of `n` gives `n`. */
  lemma {:induction false} DigitsOfNatToString(n: nat)
    ensures DigitsValue(NatToString(n)) == n
  {
    if n >= 10 {
      DigitsOfNatToString(n / 10);
      var s := NatToString(n);
      assert s[..|s| - 1] == NatToString(n / 10);
    }
  }

  /** Some character of `s` is an information separator. */
  predicate HasSeparator(s: string)
  {
    s != [] && (IsSeparator(s[0]) || HasSeparator(s[1..]))
  }

  lemma {:induction false} HasSeparatorIff(s: string)
    ensures HasSeparator(s) <==> exists i :: 0 <= i < |s| && IsSeparator(s[i])
  {
    if s != [] {
      HasSeparatorIff(s[1..]);
      if exists i :: 0 <= i < |s[1..]| && IsSeparator(s[1..][i]) {
        var i :| 0 <= i < |s[1..]| && IsSeparator(s[1..][i]);
        assert IsSeparator(s[i + 1]);
      }
      if exists i :: 0 <= i < |s| && IsSeparator(s[i]) {
        var i :| 0 <= i < |s| && IsSeparator(s[i]);
        if i > 0 {
          assert IsSeparator(s[1..][i - 1]);
        }
      }
    }
  }

  /** Python's `int(s)`: optional surrounding whitespace, an optional sign and
      at least one decimal digit; anything else raises ValueError (None here).
      Unlike `strip()`, `int()` does not skip the information separators. */
  function ParseInt(s: string): (r: Option<int>)
  {
    if HasSeparator(s) then None
    else
    var t := LStrip(RStrip(s));
    var negative := |t| > 0 && t[0] == '-';
    var digits := if |t| > 0 && (t[0] == '-' || t[0] == '+') then t[1..] else t;
    if digits == [] || !AllDigits(digits) then None
    else if negative then Some(0 - DigitsValue(digits) as int)
    else Some(DigitsValue(digits))
  }

  /** `int(str(n)) == n`: the decimal spelling round-trips through the parser. */
  lemma ParseNatToString(n: nat)
    ensures ParseInt(NatToString(n)) == Some(n)
  {
    var s := NatToString(n);
    assert !IsSpace(s[|s| - 1]);
    assert RStrip(s) == s;
    assert !IsSpace(s[0]);
    assert LStrip(s) == s;
    assert s[0] != '-' && s[0] != '+';
    HasSeparatorIff(s);
    DigitsOfNatToString(n);
  }

  /** Stripping a reply never spoils a number `int()` accepts, and it
      changes the outcome only where an information separator sits in the
      trailing whitespace: `int()` refuses the raw reply and accepts the
      stripped one. */
  lemma ParseIntStripped(s: string)
    ensures ParseInt(s).Some? ==> ParseInt(RStrip(s)) == ParseInt(s)
    ensures ParseInt(RStrip(s)) != ParseInt(s) ==>
      ParseInt(s) == None && exists i :: |RStrip(s)| <= i < |s| && IsSeparator(s[i])
  {
    RStripIdempotent(s);
    RStripLaw(s);
    HasSeparatorIff(s);
    HasSeparatorIff(RStrip(s));
    if !exists i :: 0 <= i < |s| && IsSeparator(s[i]) {
      assert forall i :: 0 <= i < |RStrip(s)| ==> RStrip(s)[i] == s[i];
    } else if ParseInt(RStrip(s)) != ParseInt(s) {
      assert forall i :: 0 <= i < |RStrip(s)| ==> RStrip(s)[i] == s[i];
    }
  }

  /** `int('4\x1c')` raises while `int('4\x1c'.rstrip())` is 4. */
  lemma SeparatorExample()
    ensures RStrip("4\U{001C}") == "4"
    ensures ParseInt("4\U{001C}") == None && ParseInt("4") == Some(4)
  {
    assert IsSeparator("4\U{001C}"[1]);
    assert RStrip("4") == "4" && LStrip("4") == "4";
    assert AllDigits("4");
    assert DigitsValue("4") == DigitsValue("") * 10 + DigitValue('4');
  }

  /** A reply of nothing but whitespace, an empty one included, is not a
      number: `int('')` raises. */
  lemma ParseIntRejectsBlank(s: string)
    requires forall i :: 0 <= i < |s| ==> IsSpace(s[i])
    ensures ParseInt(s) == None
  {
    RStripLaw(s);
    assert RStrip(s) == [];
  }
}
