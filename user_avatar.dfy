/**
 * components/UserAvatar.tsx: the initials and gradient of the fallback
 * avatar, and when the authenticated image is shown instead.
 */
module UserAvatar {
  import opened Wrappers
  import opened Text

  datatype Gradient = Gradient(start: string, end: string)

  /** The five fallback gradients, in their order. */
  const Gradients: seq<Gradient> := [
    Gradient("#667eea", "#764ba2"),
    Gradient("#4facfe", "#00f2fe"),
    Gradient("#fa709a", "#fee140"),
    Gradient("#f093fb", "#f5576c"),
    Gradient("#43e97b", "#38f9d7")
  ]

  // ---------------------------------------------------------------------------
  // Initials

  /** `.map(p => p.trim()).filter(Boolean)`: the trimmed pieces that are not empty. */
  function NonBlank(pieces: seq<string>): (r: seq<string>)
    ensures |r| <= |pieces|
    ensures forall k :: 0 <= k < |r| ==> r[k] != ""
    ensures r == [] <==> AllPiecesWhitespace(pieces)
  {
    if pieces == [] then []
    else
      var rest := NonBlank(pieces[1..]);
      NonBlankStep(pieces, rest);
      (if Trim(pieces[0]) == "" then [] else [Trim(pieces[0])]) + rest
  }

  lemma NonBlankStep(pieces: seq<string>, rest: seq<string>)
    requires pieces != []
    requires forall k :: 0 <= k < |rest| ==> rest[k] != ""
    requires rest == [] <==> AllPiecesWhitespace(pieces[1..])
    ensures var r := (if Trim(pieces[0]) == "" then [] else [Trim(pieces[0])]) + rest;
      && (forall k :: 0 <= k < |r| ==> r[k] != "")
      && (r == [] <==> AllPiecesWhitespace(pieces))
  {
    TrimEmptyIff(pieces[0]);
    PiecesCons(pieces[0], pieces[1..]);
    assert pieces == [pieces[0]] + pieces[1..];
    var r := (if Trim(pieces[0]) == "" then [] else [Trim(pieces[0])]) + rest;
    forall k | 0 <= k < |r| ensures r[k] != "" {
      if Trim(pieces[0]) != "" && k > 0 { assert r[k] == rest[k - 1]; }
    }
  }

  /** The name's words: split on single spaces, trimmed, empty ones dropped. */
  function Words(name: string): seq<string> {
    NonBlank(SplitOnSpace(name))
  }

  /** `initialsFromName`. */
  function Initials(name: Option<string>): (r: string)
    ensures |r| <= 2
  {
    if name.None? || name.value == "" then ""
    else
      var parts := Words(name.value);
      if |parts| == 0 then [UpperChar(name.value[0])]
      else if |parts| == 1 then [UpperChar(parts[0][0])]
      else [UpperChar(parts[0][0]), UpperChar(parts[1][0])]
  }

  /**
   * No name gives no initials and a name gives one or two characters, none
   * of them a lower-case letter; a name of nothing but whitespace gives its
   * first character.
   */
  lemma InitialsFacts(name: Option<string>)
    ensures Initials(name) == "" <==> name.None? || name.value == ""
    ensures name.Some? && name.value != "" && AllWhitespace(name.value) ==>
      Initials(name) == [UpperChar(name.value[0])]
    ensures forall k :: 0 <= k < |Initials(name)| ==> !('a' <= Initials(name)[k] <= 'z')
  {
    InitialsOfBlank(name);
    InitialsUpper(name);
  }

  lemma InitialsOfBlank(name: Option<string>)
    ensures Initials(name) == "" <==> name.None? || name.value == ""
    ensures name.Some? && name.value != "" && AllWhitespace(name.value) ==>
      Initials(name) == [UpperChar(name.value[0])]
  {
    if name.Some? && name.value != "" {
      SplitAllWhitespace(name.value);
    }
  }

  lemma InitialsUpper(name: Option<string>)
    ensures forall k :: 0 <= k < |Initials(name)| ==> !('a' <= Initials(name)[k] <= 'z')
  {
    var r := Initials(name);
    if name.Some? && name.value != "" {
      var parts := Words(name.value);
      if |parts| == 0 {
        UpperNotLower(name.value[0]);
      } else {
        UpperNotLower(parts[0][0]);
        if |parts| > 1 { UpperNotLower(parts[1][0]); }
      }
    }
  }

  lemma UpperNotLower(c: char)
    ensures !('a' <= UpperChar(c) <= 'z')
  {
  }

  /** A single word gives its upper-cased first letter. */
  lemma OneWordInitials(word: string)
    requires word != ""
    requires forall i :: 0 <= i < |word| ==> !IsWhitespace(word[i])
    ensures Initials(Some(word)) == [UpperChar(word[0])]
  {
    SingleWord(word);
  }

  /** A word with no whitespace is its own, only, word. */
  lemma SingleWord(word: string)
    requires word != ""
    requires forall i :: 0 <= i < |word| ==> !IsWhitespace(word[i])
    ensures SplitOnSpace(word) == [word]
    ensures Words(word) == [word]
  {
    NoSpace(word);
    SplitSpaceFreePrefix(word, "");
    assert word + "" == word;
    assert word + SplitOnSpace("")[0] == word;
  }

  lemma NoSpace(s: string)
    requires forall i :: 0 <= i < |s| ==> !IsWhitespace(s[i])
    ensures ' ' !in s
  {
  }

  lemma TrimNoWhitespace(s: string)
    requires forall i :: 0 <= i < |s| ==> !IsWhitespace(s[i])
    ensures Trim(s) == s
  {
    assert TrimStart(s) == s;
    assert TrimEnd(s) == s;
  }

  /** Splitting a string that starts with a space-free run glues that run onto the first piece. */
  lemma {:induction false} SplitSpaceFreePrefix(a: string, t: string)
    requires ' ' !in a
    ensures SplitOnSpace(a + t) == [a + SplitOnSpace(t)[0]] + SplitOnSpace(t)[1..]
  {
    var p := SplitOnSpace(t);
    if a != [] {
      SplitSpaceFreePrefix(a[1..], t);
      assert (a + t)[0] == a[0] && (a + t)[1..] == a[1..] + t;
      assert a[0] != ' ' by { assert a[0] in a; }
      var rest := SplitOnSpace(a[1..] + t);
      assert rest[0] == a[1..] + p[0] && rest[1..] == p[1..];
      assert [a[0]] + (a[1..] + p[0]) == a + p[0];
    } else {
      assert a + t == t;
      assert a + p[0] == p[0];
      assert p == [p[0]] + p[1..];
    }
  }

  /** "Ada Lovelace" gives "AL": two words separated by one space give their upper-cased first letters. */
  lemma TwoWordInitials(first: string, last: string)
    requires first != "" && last != ""
    requires forall i :: 0 <= i < |first| ==> !IsWhitespace(first[i])
    requires forall i :: 0 <= i < |last| ==> !IsWhitespace(last[i])
    ensures Initials(Some(first + " " + last)) == [UpperChar(first[0]), UpperChar(last[0])]
  {
    TwoWords(first, last);
  }

  lemma TwoWords(first: string, last: string)
    requires first != "" && last != ""
    requires forall i :: 0 <= i < |first| ==> !IsWhitespace(first[i])
    requires forall i :: 0 <= i < |last| ==> !IsWhitespace(last[i])
    ensures Words(first + " " + last) == [first, last]
  {
    TwoPieces(first, last);
    TrimNoWhitespace(first);
    TrimNoWhitespace(last);
    NonBlankTrimmed(first, last);
  }

  lemma NonBlankTrimmed(first: string, last: string)
    requires first != "" && last != "" && Trim(first) == first && Trim(last) == last
    ensures NonBlank([first, last]) == [first, last]
  {
    assert [first, last] == [first] + [last];
    NonBlankCons(first, [last]);
    NonBlankSingle(last);
  }

  lemma NonBlankSingle(p: string)
    requires p != "" && Trim(p) == p
    ensures NonBlank([p]) == [p]
  {
    assert [p] == [p] + [];
    NonBlankCons(p, []);
  }

  lemma NonBlankCons(p: string, ps: seq<string>)
    ensures NonBlank([p] + ps) == (if Trim(p) == "" then [] else [Trim(p)]) + NonBlank(ps)
  {
    var qs := [p] + ps;
    assert qs[0] == p && qs[1..] == ps;
  }

  lemma TwoPieces(first: string, last: string)
    requires first != "" && last != ""
    requires forall i :: 0 <= i < |first| ==> !IsWhitespace(first[i])
    requires forall i :: 0 <= i < |last| ==> !IsWhitespace(last[i])
    ensures SplitOnSpace(first + " " + last) == [first, last]
  {
    NoSpace(first);
    SingleWord(last);
    SpaceBetween(first, last);
  }

  lemma SpaceBetween(first: string, last: string)
    requires ' ' !in first && SplitOnSpace(last) == [last]
    ensures SplitOnSpace(first + " " + last) == [first, last]
  {
    LeadingSpace(last);
    SplitSpaceFreePrefix(first, " " + last);
    assert first + " " + last == first + (" " + last);
    var p := SplitOnSpace(" " + last);
    assert p[0] == [] && p[1..] == [last];
    assert first + p[0] == first;
  }

  lemma LeadingSpace(t: string)
    ensures SplitOnSpace(" " + t) == [[]] + SplitOnSpace(t)
  {
    var s := " " + t;
    assert s[0] == ' ' && s[1..] == t;
  }

  // ---------------------------------------------------------------------------
  // Gradient

  /** `charCodeAt(0)`: the first UTF-16 code unit (the high surrogate for a character outside the Basic Multilingual Plane). */
  function FirstCodeUnit(c: char): (u: nat)
    ensures u < 0x1_0000
    ensures (c as int) < 0x1_0000 ==> u == c as int
  {
    if (c as int) < 0x1_0000 then c as int else 0xD800 + ((c as int) - 0x1_0000) / 0x400
  }

  /** The gradient for a name: the first code unit modulo five, gradient 0 without a name. */
  function GradientIndex(name: Option<string>): (i: nat)
    ensures i < |Gradients|
    ensures name.None? || name.value == "" ==> i == 0
    ensures name.Some? && name.value != "" && (name.value[0] as int) < 0x1_0000 ==> i == (name.value[0] as int) % 5
  {
    if name.Some? && name.value != "" then FirstCodeUnit(name.value[0]) % |Gradients| else 0
  }

  // ---------------------------------------------------------------------------
  // Image

  /** The image request: the uri with a bearer token. */
  datatype ImageRequest = ImageRequest(uri: string, authorization: string)

  /** `imageSource`: a request only when both the uri and the token are non-empty. */
  function ImageSource(uri: Option<string>, token: Option<string>): (src: Option<ImageRequest>)
    ensures src.Some? <==> uri.Some? && uri.value != "" && token.Some? && token.value != ""
    ensures src.Some? ==> src.value == ImageRequest(uri.value, "Bearer " + token.value)
  {
    if uri.Some? && uri.value != "" && token.Some? && token.value != "" then
      Some(ImageRequest(uri.value, "Bearer " + token.value))
    else None
  }

  /** `showImage`. */
  predicate ShowImage(uri: Option<string>, token: Option<string>, tokenReady: bool, failed: bool) {
    ImageSource(uri, token).Some? && tokenReady && !failed
  }

  /**
   * The image replaces the initials exactly when there is a uri and a token,
   * the token lookup has finished and the image has not failed to load; it
   * is then fetched with the token as a bearer credential.
   */
  lemma ShowImageIff(uri: Option<string>, token: Option<string>, tokenReady: bool, failed: bool)
    ensures ShowImage(uri, token, tokenReady, failed) <==>
      uri.Some? && uri.value != "" && token.Some? && token.value != "" && tokenReady && !failed
    ensures ShowImage(uri, token, tokenReady, failed) ==>
      ImageSource(uri, token).value.authorization == "Bearer " + token.value
  {
  }
}
