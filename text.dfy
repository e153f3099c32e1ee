/**
 * Shared vocabulary: optional values, the exceptions the C# code can throw,
 * and the small pieces of System.String / Int32 behaviour the engine relies on
 * (Split, TrimStart/TrimEnd, PadLeft, ToString("X"), IsWhiteSpace).
 */
module Wrappers {
  datatype Option<T> = None | Some(value: T)

  /** The exceptions a C# call can end with where the model follows the throwing path. */
  datatype Exception = NullReference | IndexOutOfRange | DuplicateKey | InvalidCast

  datatype Result<T> = Ok(value: T) | Throws(error: Exception)
}

module Text {
  /** System.Int32. */
  newtype int32 = x: int | -0x8000_0000 <= x < 0x8000_0000

  // ---------------------------------------------------------------- Split

  /** Number of occurrences of `c` in `s`. */
  function CountOf(s: string, c: char): nat
  {
    if s == [] then 0 else (if s[0] == c then 1 else 0) + CountOf(s[1..], c)
  }

  /**
   * String.Split(sep) with no options: every separator closes a piece, so an
   * empty string or a separator at either end gives empty pieces.
   */
  function Split(s: string, sep: char): (parts: seq<string>)
    ensures |parts| == CountOf(s, sep) + 1
    ensures forall k | 0 <= k < |parts| :: sep !in parts[k]
  {
    if s == [] then [""]
    else if s[0] == sep then [""] + Split(s[1..], sep)
    else
      var rest := Split(s[1..], sep);
      [[s[0]] + rest[0]] + rest[1..]
  }

  /** String.Join(sep, parts). */
  function Join(parts: seq<string>, sep: char): string
  {
    if |parts| == 0 then ""
    else if |parts| == 1 then parts[0]
    else parts[0] + [sep] + Join(parts[1..], sep)
  }

  /** Concatenation regrouped. */
  lemma AppendAssociates<T>(a: seq<T>, b: seq<T>, c: seq<T>)
    ensures (a + b) + c == a + (b + c)
  {
  }

  /** The last character of a join is the last character of its last part. */
  lemma {:induction false} JoinLast(parts: seq<string>, sep: char)
    requires |parts| >= 1 && parts[|parts| - 1] != ""
    ensures |Join(parts, sep)| > 0
    ensures Join(parts, sep)[|Join(parts, sep)| - 1] == parts[|parts| - 1][|parts[|parts| - 1]| - 1]
    decreases |parts|
  {
    if |parts| > 1 {
      JoinLast(parts[1..], sep);
    }
  }

  /** Joining one more part adds a separator and the part. */
  lemma {:induction false} JoinSnoc(parts: seq<string>, x: string, sep: char)
    requires parts != []
    ensures Join(parts + [x], sep) == Join(parts, sep) + [sep] + x
    decreases |parts|
  {
    if |parts| == 1 {
      assert (parts + [x])[1..] == [x];
    } else {
      assert (parts + [x])[1..] == parts[1..] + [x];
      JoinSnoc(parts[1..], x, sep);
    }
  }

  /** Splitting and joining back on the same separator gives the original text. */
  lemma {:induction false} JoinSplit(s: string, sep: char)
    ensures Join(Split(s, sep), sep) == s
  {
    if s == [] {
    } else if s[0] == sep {
      JoinSplit(s[1..], sep);
      assert s == [sep] + s[1..];
    } else {
      JoinSplit(s[1..], sep);
      var rest := Split(s[1..], sep);
      if |rest| == 1 {
        assert s == [s[0]] + rest[0];
      } else {
        assert Join(rest, sep) == rest[0] + [sep] + Join(rest[1..], sep);
        assert s == [s[0]] + s[1..];
      }
    }
  }

  /** The non-empty pieces of `parts`, in order. */
  function NonEmpty(parts: seq<string>): (r: seq<string>)
    ensures |r| <= |parts|
    ensures forall k | 0 <= k < |r| :: r[k] != "" && r[k] in parts
    ensures forall p | p in parts && p != "" :: p in r
  {
    if parts == [] then []
    else if parts[0] == "" then NonEmpty(parts[1..])
    else [parts[0]] + NonEmpty(parts[1..])
  }

  /** String.Split(sep, StringSplitOptions.RemoveEmptyEntries). */
  function SplitRemoveEmpty(s: string, sep: char): (parts: seq<string>)
    ensures forall k | 0 <= k < |parts| :: parts[k] != "" && sep !in parts[k]
  {
    NonEmpty(Split(s, sep))
  }

  /** A text without the separator is one piece, unless it is empty. */
  lemma SplitRemoveEmptyNoSeparator(s: string, sep: char)
    requires sep !in s
    ensures SplitRemoveEmpty(s, sep) == if s == "" then [] else [s]
  {
    SplitWithoutSeparator(s, sep);
  }

  lemma {:induction false} SplitWithoutSeparator(s: string, sep: char)
    requires sep !in s
    ensures Split(s, sep) == [s]
  {
    if s != [] {
      SplitWithoutSeparator(s[1..], sep);
      assert s == [s[0]] + s[1..];
    }
  }

  // -------------------------------------------------------- TrimStart/End

  /** String.TrimStart(c): drops every leading `c`. */
  function TrimStart(s: string, c: char): (r: string)
    ensures |r| <= |s| && r == s[|s| - |r|..]
    ensures forall k | 0 <= k < |s| - |r| :: s[k] == c
    ensures r == [] || r[0] != c
  {
    if s != [] && s[0] == c then TrimStart(s[1..], c) else s
  }

  /** String.TrimEnd(c): drops every trailing `c`. */
  function TrimEnd(s: string, c: char): (r: string)
    ensures |r| <= |s| && r == s[..|r|]
    ensures forall k | |r| <= k < |s| :: s[k] == c
    ensures r == [] || r[|r| - 1] != c
  {
    if s != [] && s[|s| - 1] == c then TrimEnd(s[..|s| - 1], c) else s
  }

  /** Trimming stops at the first character that is not trimmed. */
  lemma TrimStartStops(s: string, c: char)
    requires s == [] || s[0] != c
    ensures TrimStart(s, c) == s
  {
  }

  lemma TrimStartDrops(c: char, s: string)
    ensures TrimStart([c] + s, c) == TrimStart(s, c)
  {
    assert ([c] + s)[1..] == s;
  }

  lemma TrimEndStops(s: string, c: char)
    requires s == [] || s[|s| - 1] != c
    ensures TrimEnd(s, c) == s
  {
  }

  lemma TrimEndDrops(s: string, c: char)
    ensures TrimEnd(s + [c], c) == TrimEnd(s, c)
  {
    assert (s + [c])[..|s|] == s;
  }

  /** Trimming '[' from the start of "[v]" removes exactly the opening bracket. */
  lemma TrimOpening(v: string)
    requires v == [] || v[0] != '['
    ensures TrimStart("[" + v + "]", '[') == v + "]"
  {
    var t := v + "]";
    var s := ['['] + t;
    assert "[" + v + "]" == s;
    assert t == [] || t[0] != '[';
    calc {
      TrimStart(s, '[');
      { TrimStartDrops('[', t); }
      TrimStart(t, '[');
      { TrimStartStops(t, '['); }
      t;
    }
  }

  /** Trimming ']' from the end of "v]" removes exactly the closing bracket. */
  lemma TrimClosing(v: string)
    requires v == [] || v[|v| - 1] != ']'
    ensures TrimEnd(v + "]", ']') == v
  {
    TrimEndDrops(v, ']');
    TrimEndStops(v, ']');
  }

  /** Trimming '[' from the start and ']' from the end removes one pair of enclosing brackets. */
  lemma TrimBrackets(v: string)
    requires v != "" ==> v[0] != '[' && v[|v| - 1] != ']'
    ensures TrimEnd(TrimStart("[" + v + "]", '['), ']') == v
  {
    TrimOpening(v);
    TrimClosing(v);
  }

  /** A character other than the trimmed ones survives trimming. */
  lemma TrimKeeps(s: string, a: char, b: char, x: char)
    requires x in s && x != a && x != b
    ensures x in TrimEnd(TrimStart(s, a), b)
  {
    var t := TrimStart(s, a);
    var i :| 0 <= i < |s| && s[i] == x;
    assert s[|s| - |t|..][i - (|s| - |t|)] == x;
    var u := TrimEnd(t, b);
    assert t[..|u|][i - (|s| - |t|)] == x;
  }

  // --------------------------------------------------------- Hex literals

  const HexDigits: string := "0123456789ABCDEF"

  function HexDigit(d: nat): (c: char)
    requires d < 16
    ensures c in HexDigits
  {
    HexDigits[d]
  }

  /** Value of one upper-case hexadecimal digit (0 for any other character). */
  function DigitValue(c: char): (d: nat)
    ensures d < 16
  {
    if '0' <= c <= '9' then c as nat - '0' as nat
    else if 'A' <= c <= 'F' then c as nat - 'A' as nat + 10
    else 0
  }

  /** Value of a string of upper-case hexadecimal digits, most significant first. */
  function HexValue(s: string): nat
  {
    if s == [] then 0 else HexValue(s[..|s| - 1]) * 16 + DigitValue(s[|s| - 1])
  }

  /** Nonnegative Int32.ToString("X"): shortest upper-case hexadecimal form. */
  function UpperHex(n: nat): (r: string)
    ensures 1 <= |r|
    ensures forall k | 0 <= k < |r| :: r[k] in HexDigits
  {
    if n < 16 then [HexDigit(n)] else UpperHex(n / 16) + [HexDigit(n % 16)]
  }

  lemma {:induction false} UpperHexValue(n: nat)
    ensures HexValue(UpperHex(n)) == n
  {
    if n >= 16 {
      var q, d := n / 16, n % 16;
      DigitValueOfHexDigit(d);
      UpperHexValue(q);
      HexValueSnoc(UpperHex(q), HexDigit(d));
      assert UpperHex(n) == UpperHex(q) + [HexDigit(d)];
    } else {
      DigitValueOfHexDigit(n);
      HexValueSnoc([], HexDigit(n));
      assert UpperHex(n) == [] + [HexDigit(n)];
    }
  }

  lemma HexValueSnoc(s: string, c: char)
    ensures HexValue(s + [c]) == HexValue(s) * 16 + DigitValue(c)
  {
    assert (s + [c])[..|s|] == s;
  }

  lemma DigitValueOfHexDigit(d: nat)
    requires d < 16
    ensures DigitValue(HexDigit(d)) == d
  {
    assert forall k | 0 <= k < 16 :: DigitValue(HexDigits[k]) == k;
  }

  lemma {:induction false} UpperHexLength(n: nat, k: nat)
    requires 1 <= k && n < Pow16(k)
    ensures |UpperHex(n)| <= k
  {
    if n >= 16 {
      assert Pow16(1) == 16;
      assert n / 16 < Pow16(k - 1);
      UpperHexLength(n / 16, k - 1);
    }
  }

  function Pow16(k: nat): nat { if k == 0 then 1 else 16 * Pow16(k - 1) }

  /** String.PadLeft(width, c). */
  function PadLeft(s: string, width: nat, c: char): (r: string)
    ensures |r| == if |s| >= width then |s| else width
    ensures r[|r| - |s|..] == s
    ensures forall k | 0 <= k < |r| - |s| :: r[k] == c
  {
    if |s| >= width then s else seq(width - |s|, _ => c) + s
  }

  /** Leading zeros do not change a hexadecimal value. */
  lemma {:induction false} HexValueLeadingZeros(z: nat, s: string)
    ensures HexValue(seq(z, _ => '0') + s) == HexValue(s)
    decreases |s|
  {
    if s == [] {
      assert seq(z, _ => '0') + s == seq(z, _ => '0');
      ZerosValue(z);
    } else {
      var t := seq(z, _ => '0') + s;
      assert t[..|t| - 1] == seq(z, _ => '0') + s[..|s| - 1];
      HexValueLeadingZeros(z, s[..|s| - 1]);
    }
  }

  lemma {:induction false} ZerosValue(z: nat)
    ensures HexValue(seq(z, _ => '0')) == 0
  {
    if z > 0 {
      assert seq(z, _ => '0')[..z - 1] == seq(z - 1, _ => '0');
      ZerosValue(z - 1);
    }
  }

  lemma Pow16Eight()
    ensures Pow16(8) == 0x1_0000_0000
  {
    assert Pow16(2) == 256;
    assert Pow16(4) == 256 * Pow16(2);
    assert Pow16(6) == 256 * Pow16(4);
  }

  /** Eight padded digits of a 32-bit value spell that value. */
  lemma PaddedHex(n: nat)
    requires n < 0x1_0000_0000
    ensures |PadLeft(UpperHex(n), 8, '0')| == 8
    ensures forall k | 0 <= k < 8 :: PadLeft(UpperHex(n), 8, '0')[k] in HexDigits
    ensures HexValue(PadLeft(UpperHex(n), 8, '0')) == n
  {
    Pow16Eight();
    UpperHexLength(n, 8);
    var h := UpperHex(n);
    UpperHexValue(n);
    var padded := PadLeft(h, 8, '0');
    assert padded == seq(8 - |h|, _ => '0') + h;
    HexValueLeadingZeros(8 - |h|, h);
    forall k | 0 <= k < 8 ensures padded[k] in HexDigits {
      if k >= 8 - |h| {
        assert padded[k] == h[k - (8 - |h|)];
      }
    }
  }

  /** The unsigned 32-bit reading of an Int32, as ToString("X") prints it. */
  function Unsigned32(v: int32): (n: nat)
    ensures n < 0x1_0000_0000
    ensures n == (v as int) % 0x1_0000_0000
  {
    if v < 0 then v as int + 0x1_0000_0000 else v as int
  }

  /** Int32.ToString("X"): negative values print as their 32-bit two's complement. */
  function Int32Hex(v: int32): string
  {
    UpperHex(Unsigned32(v))
  }

  /** "0x" + v.ToString("X").PadLeft(8, '0'): the binary literal a type code is folded into. */
  function HexLiteral(v: int32): string
  {
    "0x" + PadLeft(Int32Hex(v), 8, '0')
  }

  /**
   * A folded literal is always "0x" and exactly eight upper-case hex digits,
   * and those digits spell the type code (modulo 2^32).
   */
  lemma HexLiteralShape(v: int32)
    ensures |HexLiteral(v)| == 10 && HexLiteral(v)[..2] == "0x"
    ensures forall k | 2 <= k < 10 :: HexLiteral(v)[k] in HexDigits
    ensures HexValue(HexLiteral(v)[2..]) == (v as int) % 0x1_0000_0000
  {
    var n := Unsigned32(v);
    PaddedHex(n);
    var padded := PadLeft(UpperHex(n), 8, '0');
    var lit := HexLiteral(v);
    assert lit == "0x" + padded;
    assert lit[2..] == padded;
    forall k | 2 <= k < 10 ensures lit[k] in HexDigits {
      assert lit[k] == padded[k - 2];
    }
  }

  // ----------------------------------------------------------- Whitespace

  /** char.IsWhiteSpace: the Unicode space separators plus the C0/C1 layout controls. */
  predicate IsWhiteSpace(c: char)
  {
    ('\U{9}' <= c <= '\U{D}') || c == ' ' || c == '\U{85}' || c == '\U{A0}'
    || c == '\U{1680}' || ('\U{2000}' <= c <= '\U{200A}') || c == '\U{2028}' || c == '\U{2029}'
    || c == '\U{202F}' || c == '\U{205F}' || c == '\U{3000}'
  }

  /** String.IsNullOrWhiteSpace (the null case is handled by the callers). */
  predicate IsBlank(s: string)
  {
    forall k | 0 <= k < |s| :: IsWhiteSpace(s[k])
  }

  // ------------------------------------------------- Case-insensitive match

  /**
   * Lower-case of a character for ASCII and Cyrillic letters, the letters the
   * metadata names are written in.
   */
  function FoldChar(c: char): char
  {
    if 'A' <= c <= 'Z' || 'А' <= c <= 'Я' then (c as int + 32) as char
    else if 'Ѐ' <= c <= 'Џ' then (c as int + 80) as char
    else c
  }

  function Fold(s: string): (r: string)
    ensures |r| == |s|
    ensures forall k | 0 <= k < |s| :: r[k] == FoldChar(s[k])
  {
    seq(|s|, k requires 0 <= k < |s| => FoldChar(s[k]))
  }

  /** `p` occurs in `s` starting at some position. */
  predicate IsInfix(p: string, s: string)
  {
    |p| <= |s| && (s[..|p|] == p || IsInfix(p, s[1..]))
  }

  /** `p` occurs in `s` at position `i`. */
  predicate OccursAt(p: string, s: string, i: int)
  {
    0 <= i <= |s| - |p| && s[i..i + |p|] == p
  }

  lemma {:induction false} IsInfixAt(p: string, s: string)
    ensures IsInfix(p, s) <==> exists i :: OccursAt(p, s, i)
  {
    if |p| <= |s| {
      if s[..|p|] == p {
        assert OccursAt(p, s, 0);
      } else {
        IsInfixAt(p, s[1..]);
        forall j | OccursAt(p, s[1..], j) ensures OccursAt(p, s, j + 1) {
          assert s[1..][j..j + |p|] == s[j + 1..j + 1 + |p|];
        }
        forall i | OccursAt(p, s, i) ensures OccursAt(p, s[1..], i - 1) {
          assert i != 0 by { assert s[0..0 + |p|] == s[..|p|]; }
          assert s[1..][i - 1..i - 1 + |p|] == s[i..i + |p|];
        }
      }
    }
  }

  /** IndexOf(name, pattern, CompareOptions.IgnoreCase) >= 0. */
  predicate ContainsIgnoreCase(s: string, pattern: string)
  {
    IsInfix(Fold(pattern), Fold(s))
  }

  /** The empty pattern matches every name, and every name matches itself. */
  lemma ContainsIgnoreCaseBasics(s: string)
    ensures ContainsIgnoreCase(s, "")
    ensures ContainsIgnoreCase(s, s)
  {
    assert Fold(s)[..0] == Fold("");
    assert Fold(s)[..|s|] == Fold(s);
  }
}
