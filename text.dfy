/**
 * The JavaScript string operations the chat client relies on: `trim`,
 * `toLowerCase`/`toUpperCase` (ASCII letters only), `includes`,
 * `split(" ")`, `String(n)`, `padStart(2, "0")` and the UTF-16 `length`.
 */
module Text {

  /** The characters `String.prototype.trim` removes (WhiteSpace and LineTerminator). */
  predicate IsWhitespace(c: char) {
    || c == ' ' || c == '\t' || c == '\n' || c == '\r' || c == '\U{000B}' || c == '\U{000C}'
    || c == '\U{00A0}' || c == '\U{1680}' || ('\U{2000}' <= c <= '\U{200A}')
    || c == '\U{2028}' || c == '\U{2029}' || c == '\U{202F}' || c == '\U{205F}'
    || c == '\U{3000}' || c == '\U{FEFF}'
  }

  ghost predicate AllWhitespace(s: string) {
    forall i :: 0 <= i < |s| ==> IsWhitespace(s[i])
  }

  /** Drops leading whitespace. */
  function TrimStart(s: string): (r: string)
    ensures |r| <= |s| && r == s[|s| - |r|..]
    ensures r == [] || !IsWhitespace(r[0])
    ensures AllWhitespace(s[..|s| - |r|])
  {
    if s != [] && IsWhitespace(s[0]) then
      var r := TrimStart(s[1..]);
      var w := s[1..][..|s| - 1 - |r|];
      assert s[..|s| - |r|] == [s[0]] + w;
      ConsAllWhitespace(s[0], w);
      r
    else s
  }

  /** Drops trailing whitespace. */
  function TrimEnd(s: string): (r: string)
    ensures |r| <= |s| && r == s[..|r|]
    ensures r == [] || !IsWhitespace(r[|r| - 1])
    ensures AllWhitespace(s[|r|..])
  {
    if s != [] && IsWhitespace(s[|s| - 1]) then TrimEnd(s[..|s| - 1]) else s
  }

  /** `s.trim()`. */
  function Trim(s: string): string {
    TrimEnd(TrimStart(s))
  }

  /** A string trims to the empty string exactly when it is all whitespace. */
  lemma TrimEmptyIff(s: string)
    ensures Trim(s) == [] <==> AllWhitespace(s)
  {
    var t := TrimStart(s);
    if Trim(s) == [] {
      assert t[0..] == t;
      assert t == [];
      assert s[..|s| - |t|] == s;
    } else {
      var r := Trim(s);
      assert r[0] == t[0];
      assert t[0] == s[|s| - |t|];
      assert !IsWhitespace(s[|s| - |t|]);
    }
  }

  /** Trimming twice is trimming once. */
  lemma TrimIdempotent(s: string)
    ensures Trim(Trim(s)) == Trim(s)
  {
    var r := Trim(s);
    if r != [] {
      assert !IsWhitespace(r[0]);
      assert TrimStart(r) == r;
      assert TrimEnd(r) == r;
    }
  }

  function LowerChar(c: char): char {
    if 'A' <= c <= 'Z' then (c as int + 32) as char else c
  }

  function UpperChar(c: char): char {
    if 'a' <= c <= 'z' then (c as int - 32) as char else c
  }

  /** `s.toLowerCase()` restricted to the ASCII letters. */
  function ToLower(s: string): (r: string)
    ensures |r| == |s|
    ensures forall i :: 0 <= i < |s| ==> r[i] == LowerChar(s[i])
  {
    seq(|s|, i requires 0 <= i < |s| => LowerChar(s[i]))
  }

  ghost predicate OccursAt(s: string, sub: string, i: int) {
    0 <= i && i + |sub| <= |s| && s[i..i + |sub|] == sub
  }

  /** `s.includes(sub)`. */
  function Contains(s: string, sub: string): (r: bool)
    ensures r <==> exists i :: OccursAt(s, sub, i)
    decreases |s|
  {
    if |sub| > |s| then false
    else if sub <= s then (assert OccursAt(s, sub, 0); true)
    else if s == [] then false
    else (ContainsStep(s, sub); Contains(s[1..], sub))
  }

  lemma ContainsStep(s: string, sub: string)
    requires s != [] && |sub| <= |s| && !(sub <= s)
    ensures (exists i :: OccursAt(s, sub, i)) <==> (exists i :: OccursAt(s[1..], sub, i))
  {
    if i :| OccursAt(s[1..], sub, i) {
      assert s[1..][i..i + |sub|] == s[i + 1..i + 1 + |sub|];
      assert OccursAt(s, sub, i + 1);
    }
    if i :| OccursAt(s, sub, i) {
      assert s[1..][i - 1..i - 1 + |sub|] == s[i..i + |sub|];
      assert OccursAt(s[1..], sub, i - 1);
    }
  }

  /** `s.split(" ")`: the pieces between single spaces, empty pieces included. */
  function SplitOnSpace(s: string): (parts: seq<string>)
    ensures |parts| >= 1
    ensures forall k :: 0 <= k < |parts| ==> ' ' !in parts[k]
  {
    if s == [] then [[]]
    else
      var rest := SplitOnSpace(s[1..]);
      if s[0] == ' ' then [[]] + rest
      else [[s[0]] + rest[0]] + rest[1..]
  }

  /** `parts.join(" ")`. */
  function JoinOnSpace(parts: seq<string>): string
    requires |parts| >= 1
  {
    if |parts| == 1 then parts[0] else parts[0] + " " + JoinOnSpace(parts[1..])
  }

  /** Splitting on spaces loses nothing: joining the pieces gives the string back. */
  lemma {:induction false} SplitJoin(s: string)
    ensures JoinOnSpace(SplitOnSpace(s)) == s
  {
    if s != [] {
      var rest := SplitOnSpace(s[1..]);
      SplitJoin(s[1..]);
      if s[0] == ' ' {
        assert SplitOnSpace(s) == [[]] + rest;
        assert SplitOnSpace(s)[1..] == rest;
      } else {
        var parts := SplitOnSpace(s);
        assert parts[1..] == rest[1..];
        if |rest| == 1 {
          assert parts == [[s[0]] + rest[0]];
        } else {
          assert rest[1..] == rest[1..];
          assert JoinOnSpace(rest) == rest[0] + " " + JoinOnSpace(rest[1..]);
          assert JoinOnSpace(parts) == ([s[0]] + rest[0]) + " " + JoinOnSpace(rest[1..]);
        }
      }
    }
  }

  ghost predicate AllPiecesWhitespace(parts: seq<string>) {
    forall k :: 0 <= k < |parts| ==> AllWhitespace(parts[k])
  }

  lemma PiecesCons(p: string, ps: seq<string>)
    ensures AllPiecesWhitespace([p] + ps) <==> AllWhitespace(p) && AllPiecesWhitespace(ps)
  {
    var qs := [p] + ps;
    assert qs[0] == p;
    if AllPiecesWhitespace(qs) {
      forall k | 0 <= k < |ps| ensures AllWhitespace(ps[k]) { assert ps[k] == qs[k + 1]; }
    }
    if AllWhitespace(p) && AllPiecesWhitespace(ps) {
      forall k | 0 <= k < |qs| ensures AllWhitespace(qs[k]) { if k > 0 { assert qs[k] == ps[k - 1]; } }
    }
  }

  /** Every piece of the split is all whitespace exactly when the whole string is. */
  lemma {:induction false} SplitAllWhitespace(s: string)
    ensures AllWhitespace(s) <==> AllPiecesWhitespace(SplitOnSpace(s))
  {
    if s != [] {
      var rest := SplitOnSpace(s[1..]);
      var parts := SplitOnSpace(s);
      SplitAllWhitespace(s[1..]);
      assert s == [s[0]] + s[1..];
      ConsAllWhitespace(s[0], s[1..]);
      if s[0] != ' ' {
        ConsAllWhitespace(s[0], rest[0]);
        assert parts == [[s[0]] + rest[0]] + rest[1..];
        assert rest == [rest[0]] + rest[1..];
        PiecesCons([s[0]] + rest[0], rest[1..]);
        PiecesCons(rest[0], rest[1..]);
      } else {
        assert parts == [[]] + rest;
        PiecesCons([], rest);
      }
    }
  }

  lemma ConsAllWhitespace(c: char, t: string)
    ensures AllWhitespace([c] + t) <==> IsWhitespace(c) && AllWhitespace(t)
  {
    var s := [c] + t;
    assert s[0] == c;
    if AllWhitespace(s) {
      forall i | 0 <= i < |t| ensures IsWhitespace(t[i]) { assert t[i] == s[i + 1]; }
    }
    if IsWhitespace(c) && AllWhitespace(t) {
      forall i | 0 <= i < |s| ensures IsWhitespace(s[i]) { if i > 0 { assert s[i] == t[i - 1]; } }
    }
  }

  /** The decimal digit character for `d`. */
  function DigitChar(d: nat): (c: char)
    requires d < 10
    ensures IsDigit(c) && c as int - '0' as int == d
  {
    ('0' as int + d) as char
  }

  predicate IsDigit(c: char) {
    '0' <= c <= '9'
  }

  function DigitValue(c: char): nat
    requires IsDigit(c)
  {
    c as int - '0' as int
  }

  /** `String(n)` for a non-negative integer. */
  function NatToString(n: nat): (r: string)
    ensures |r| >= 1
    ensures forall i :: 0 <= i < |r| ==> IsDigit(r[i])
  {
    if n < 10 then [DigitChar(n)] else NatToString(n / 10) + [DigitChar(n % 10)]
  }

  /** Reads a digit string back as a number. */
  function ParseDigits(s: string): nat
    requires forall i :: 0 <= i < |s| ==> IsDigit(s[i])
  {
    if s == [] then 0 else ParseDigits(s[..|s| - 1]) * 10 + DigitValue(s[|s| - 1])
  }

  lemma {:induction false} ParseNatToString(n: nat)
    ensures ParseDigits(NatToString(n)) == n
  {
    var r := NatToString(n);
    if n < 10 {
      assert DigitValue(DigitChar(n)) == n;
    } else {
      ParseNatToString(n / 10);
      assert r[..|r| - 1] == NatToString(n / 10);
      assert DigitValue(DigitChar(n % 10)) == n % 10;
    }
  }

  /** `String(n)` gives different text for different numbers. */
  lemma NatToStringInjective(a: nat, b: nat)
    requires NatToString(a) == NatToString(b)
    ensures a == b
  {
    ParseNatToString(a);
    ParseNatToString(b);
  }

  /** `String(n)` for any integer. */
  function IntToString(n: int): (r: string)
    ensures |r| >= 1
    ensures n < 0 <==> r[0] == '-'
  {
    if n < 0 then "-" + NatToString(-n) else NatToString(n)
  }

  lemma IntToStringInjective(a: int, b: int)
    requires IntToString(a) == IntToString(b)
    ensures a == b
  {
    if a < 0 {
      assert b < 0;
      var na, nb := NatToString(-a), NatToString(-b);
      assert ("-" + na)[1..] == na;
      assert ("-" + nb)[1..] == nb;
      NatToStringInjective(-a, -b);
    } else {
      assert b >= 0;
      NatToStringInjective(a, b);
    }
  }

  /** `s.padStart(2, "0")`. */
  function PadStart2(s: string): (r: string)
    ensures |r| == if |s| >= 2 then |s| else 2
    ensures r[|r| - |s|..] == s
    ensures forall i :: 0 <= i < |r| - |s| ==> r[i] == '0'
  {
    if |s| >= 2 then s else if |s| == 1 then "0" + s else "00"
  }

  /** `s.length`: UTF-16 code units, two for a character outside the Basic Multilingual Plane. */
  function Utf16Length(s: string): (n: nat)
    ensures |s| <= n <= 2 * |s|
  {
    if s == [] then 0 else (if s[0] as int >= 0x1_0000 then 2 else 1) + Utf16Length(s[1..])
  }
}
