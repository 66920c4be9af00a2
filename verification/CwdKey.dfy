/** Grok Build's directory key for a working directory. */
module CwdKey {
  import opened Text

  const MAX_DIRNAME_BYTES: nat := 255
  const MAX_SLUG_CHARS: nat := 40
  const PERCENT: byte := 37

  // ----- Percent encoding -----

  /** The unreserved set of section 2.3 of RFC 3986. */
  predicate Unreserved(b: byte) {
    || 65 <= b <= 90 || 97 <= b <= 122 || 48 <= b <= 57
    || b == 45 || b == 95 || b == 46 || b == 126
  }

  /** What is left as it is: letters, digits and four marks. */
  lemma UnreservedIff(b: byte)
    ensures Unreserved(b) <==>
            || 'A' as int <= b as int <= 'Z' as int || 'a' as int <= b as int <= 'z' as int || '0' as int <= b as int <= '9' as int
            || b in Ascii("-_.~")
  {
    var marks := Ascii("-_.~");
    assert marks == [45, 95, 46, 126];
  }

  function HexDigit(n: nat): byte
    requires n < 16
  {
    if n < 10 then (48 + n) as byte else (55 + n) as byte
  }

  predicate IsHexDigit(b: byte) {
    48 <= b <= 57 || 65 <= b <= 70
  }

  function HexValue(b: byte): nat
    requires IsHexDigit(b)
  {
    if b <= 57 then (b - 48) as nat else (b - 55) as nat
  }

  function EncodedByte(b: byte): Text {
    if Unreserved(b) then [b] else [PERCENT, HexDigit(b as nat / 16), HexDigit(b as nat % 16)]
  }

  function Encoded(value: Text): Text {
    JoinAll(EncodedByte, value)
  }

  /** The byte an encoded text starts with and how long its encoding is, if the
      text starts with what the encoder would write. */
  function DecodedFirst(t: Text): Option<(byte, nat)> {
    if t == [] then None
    else if Unreserved(t[0]) then Some((t[0], 1))
    else if t[0] == PERCENT && |t| >= 3 && IsHexDigit(t[1]) && IsHexDigit(t[2])
         && !Unreserved((16 * HexValue(t[1]) + HexValue(t[2])) as byte)
    then Some(((16 * HexValue(t[1]) + HexValue(t[2])) as byte, 3))
    else None
  }

  function Decoded(t: Text): Option<Text> {
    if t == [] then Some([])
    else match DecodedFirst(t)
         case None => None
         case Some((b, n)) =>
           match Decoded(t[n..])
           case None => None
           case Some(rest) => Some([b] + rest)
  }

  lemma EncodedCons(b: byte, rest: Text)
    ensures Encoded([b] + rest) == EncodedByte(b) + Encoded(rest)
  {
    hide EncodedByte;
    JoinSplit(EncodedByte, [b], rest);
    assert [b][..0] == [];
  }

  lemma DecodesByte(b: byte, more: Text)
    ensures DecodedFirst(EncodedByte(b) + more) == Some((b, |EncodedByte(b)|))
    ensures (EncodedByte(b) + more)[|EncodedByte(b)|..] == more
    ensures EncodedByte(b) != []
  {
  }

  /** Decoding undoes encoding. */
  lemma {:induction false} EncodeRoundTrip(value: Text)
    ensures Decoded(Encoded(value)) == Some(value)
  {
    hide EncodedByte, DecodedFirst, Encoded;
    if value == [] {
      assert Encoded([]) == [] by { EncodedNone(); }
    } else {
      var b, rest := value[0], value[1..];
      assert value == [b] + rest;
      EncodedCons(b, rest);
      DecodesByte(b, Encoded(rest));
      EncodeRoundTrip(rest);
    }
  }

  lemma EncodedNone()
    ensures Encoded([]) == []
  {
  }

  lemma DecodedFirstEncodes(t: Text)
    requires DecodedFirst(t).Some?
    ensures var (b, n) := DecodedFirst(t).value; 0 < n <= |t| && EncodedByte(b) == t[..n]
  {
  }

  /** And encoding undoes decoding: the decoder accepts exactly the texts the
      encoder writes. */
  lemma {:induction false} DecodeRoundTrip(t: Text)
    requires Decoded(t).Some?
    ensures Encoded(Decoded(t).value) == t
    decreases |t|
  {
    hide EncodedByte, DecodedFirst, Encoded;
    if t == [] {
      EncodedNone();
    } else {
      var (b, n) := DecodedFirst(t).value;
      DecodedFirstEncodes(t);
      DecodeRoundTrip(t[n..]);
      EncodedCons(b, Decoded(t[n..]).value);
      assert t == t[..n] + t[n..];
    }
  }

  lemma EncodedInjective(a: Text, b: Text)
    ensures Encoded(a) == Encoded(b) <==> a == b
  {
    EncodeRoundTrip(a);
    EncodeRoundTrip(b);
  }

  method UrlEncode(value: Text) returns (encoded: Text)
    ensures encoded == Encoded(value)
    ensures Decoded(encoded) == Some(value)
  {
    encoded := [];
    EncodeRoundTrip(value);
    for k := 0 to |value|
      invariant encoded == Encoded(value[..k])
    {
      assert value[..k+1] == value[..k] + [value[k]];
      JoinSnoc(EncodedByte, value[..k], value[k]);
      var b := value[k];
      if Unreserved(b) {
        encoded := encoded + [b];
      } else {
        encoded := encoded + [PERCENT, HexDigit(b as nat / 16), HexDigit(b as nat % 16)];
      }
    }
    assert value[..|value|] == value;
  }

  // ----- Slugs -----

  predicate IsAlnum(c: nat)
    ensures IsAlnum(c) ==> c < 128
  {
    65 <= c <= 90 || 97 <= c <= 122 || 48 <= c <= 57
  }

  const DASH: byte := 45

  /** The letters and digits among the characters of a lower-cased name, which
      are given by their code points. */
  function Letters(input: seq<nat>): Text {
    if input == [] then []
    else
      var c := input[|input|-1];
      Letters(input[..|input|-1]) + if IsAlnum(c) then [c as byte] else []
  }

  function LettersOf(t: Text): Text {
    if t == [] then []
    else LettersOf(t[..|t|-1]) + if t[|t|-1] == DASH then [] else [t[|t|-1]]
  }

  predicate SlugText(t: Text) {
    && (forall i :: 0 <= i < |t| ==> IsAlnum(t[i] as nat) || t[i] == DASH)
    && (forall i :: 0 < i < |t| ==> !(t[i-1] == DASH && t[i] == DASH))
  }

  lemma {:induction false} LettersOfSplit(a: Text, b: Text)
    ensures LettersOf(a + b) == LettersOf(a) + LettersOf(b)
  {
    if b == [] {
      assert a + b == a;
    } else {
      assert (a + b)[..|a + b|-1] == a + b[..|b|-1];
      LettersOfSplit(a, b[..|b|-1]);
    }
  }

  function Trimmed(t: Text): Text {
    if t == [] then []
    else if t[0] == DASH then Trimmed(t[1..])
    else if t[|t|-1] == DASH then Trimmed(t[..|t|-1])
    else t
  }

  lemma {:induction false} TrimmedKeeps(t: Text)
    requires SlugText(t)
    ensures SlugText(Trimmed(t)) && LettersOf(Trimmed(t)) == LettersOf(t)
    ensures Trimmed(t) != [] ==> Trimmed(t)[0] != DASH && Trimmed(t)[|Trimmed(t)|-1] != DASH
    decreases |t|
  {
    if t != [] {
      if t[0] == DASH {
        TrimmedKeeps(t[1..]);
        assert t == [t[0]] + t[1..];
        LettersOfSplit([t[0]], t[1..]);
        assert [t[0]][..0] == [];
      } else if t[|t|-1] == DASH {
        TrimmedKeeps(t[..|t|-1]);
      }
    }
  }

  /** Every run of anything but letters and digits as one dash. */
  function Collapsed(input: seq<nat>): Text {
    if input == [] then []
    else
      var front := Collapsed(input[..|input|-1]);
      var c := input[|input|-1];
      if IsAlnum(c) then front + [c as byte]
      else if front != [] && front[|front|-1] == DASH then front
      else front + [DASH]
  }

  lemma {:induction false} CollapsedKeeps(input: seq<nat>)
    ensures SlugText(Collapsed(input)) && LettersOf(Collapsed(input)) == Letters(input)
  {
    if input != [] {
      var front, last := input[..|input|-1], input[|input|-1];
      CollapsedKeeps(front);
      var was := Collapsed(front);
      if IsAlnum(last) {
        assert (was + [last as byte])[..|was|] == was;
      } else {
        assert (was + [DASH])[..|was|] == was;
      }
    }
  }

  function Slug(input: seq<nat>, maxChars: nat): Text {
    var t := Trimmed(Collapsed(input));
    t[..Min(maxChars, |t|)]
  }

  /** A slug is at most `maxChars` long, has no two adjacent dashes and none in
      front, and keeps the letters of the input, in order and from its start. */
  lemma SlugShape(input: seq<nat>, maxChars: nat)
    ensures |Slug(input, maxChars)| <= maxChars && SlugText(Slug(input, maxChars))
    ensures Slug(input, maxChars) != [] ==> Slug(input, maxChars)[0] != DASH
    ensures LettersOf(Slug(input, maxChars)) <= Letters(input)
    ensures |Slug(input, maxChars)| < maxChars ==> LettersOf(Slug(input, maxChars)) == Letters(input)
  {
    hide Collapsed, Trimmed, LettersOf, Letters;
    CollapsedKeeps(input);
    TrimmedKeeps(Collapsed(input));
    var t := Trimmed(Collapsed(input));
    var kept := Min(maxChars, |t|);
    assert t == t[..kept] + t[kept..];
    LettersOfSplit(t[..kept], t[kept..]);
    if |t| < maxChars {
      assert t[..kept] == t;
    }
  }

  method GrokSlug(input: seq<nat>, maxChars: nat) returns (slug: Text)
    ensures slug == Slug(input, maxChars)
  {
    slug := [];
    var previousDash := false;
    for k := 0 to |input|
      invariant slug == Collapsed(input[..k])
      invariant previousDash == (slug != [] && slug[|slug|-1] == DASH)
    {
      assert input[..k+1][..k] == input[..k];
      if IsAlnum(input[k]) {
        slug := slug + [input[k] as byte];
        previousDash := false;
      } else if !previousDash {
        slug := slug + [DASH];
        previousDash := true;
      }
    }
    assert input[..|input|] == input;
    slug := Trimmed(slug);
    slug := slug[..Min(maxChars, |slug|)];
  }

  // ----- The key -----

  /** What the key takes from outside: the lower-cased last component of a path
      and the path's BLAKE3 digest in hexadecimal. */
  datatype Outside = Outside(leaf: Text -> seq<nat>, digest: Text -> Text)

  predicate IsDigest(t: Text) {
    |t| == 64 && forall i :: 0 <= i < |t| ==> Unreserved(t[i])
  }

  ghost predicate Lawful(o: Outside) {
    forall cwd :: IsDigest(o.digest(cwd))
  }

  predicate IsHashed(cwd: Text) {
    |Encoded(cwd)| > MAX_DIRNAME_BYTES
  }

  /** The bytes of "workspace". */
  const WORKSPACE: Text := [119, 111, 114, 107, 115, 112, 97, 99, 101]

  function SlugFor(o: Outside, cwd: Text): Text {
    var slug := Slug(o.leaf(cwd), MAX_SLUG_CHARS);
    if slug == [] then WORKSPACE else slug
  }

  function HashPrefix(o: Outside, cwd: Text): Text {
    var d := o.digest(cwd);
    d[..Min(16, |d|)]
  }

  function Key(o: Outside, cwd: Text): Text {
    if !IsHashed(cwd) then Encoded(cwd) else SlugFor(o, cwd) + [DASH] + HashPrefix(o, cwd)
  }

  lemma SlugForShape(o: Outside, cwd: Text)
    requires Lawful(o)
    ensures 0 < |SlugFor(o, cwd)| <= MAX_SLUG_CHARS && PlainText(SlugFor(o, cwd))
    ensures |HashPrefix(o, cwd)| == 16 && PlainText(HashPrefix(o, cwd))
  {
    hide Slug;
    SlugShape(o.leaf(cwd), MAX_SLUG_CHARS);
    assert IsDigest(o.digest(cwd));
  }

  /** Only characters that encode to themselves. */
  predicate PlainText(t: Text) {
    forall i :: 0 <= i < |t| ==> Unreserved(t[i])
  }

  lemma {:induction false} PlainEncodesToItself(t: Text)
    requires PlainText(t)
    ensures Encoded(t) == t
  {
    if t != [] {
      PlainEncodesToItself(t[..|t|-1]);
    }
  }

  /** Every key is one file name. */
  lemma KeyFits(o: Outside, cwd: Text)
    requires Lawful(o)
    ensures |Key(o, cwd)| <= MAX_DIRNAME_BYTES
  {
    hide SlugFor, HashPrefix;
    SlugForShape(o, cwd);
  }

  predicate Absolute(cwd: Text) {
    cwd != [] && cwd[0] == 47
  }

  predicate SameHashed(o: Outside, a: Text, b: Text) {
    IsHashed(a) && IsHashed(b) && SlugFor(o, a) == SlugFor(o, b) && HashPrefix(o, a) == HashPrefix(o, b)
  }

  /** Two directories share a key exactly when they are the same, both are too
      long to encode and their slugs and digests agree, or one is too long and
      the other is its key. */
  lemma SameKeyIff(o: Outside, a: Text, b: Text)
    requires Lawful(o)
    ensures Key(o, a) == Key(o, b) <==>
            a == b || SameHashed(o, a, b) || (IsHashed(a) && b == Key(o, a)) || (IsHashed(b) && a == Key(o, b))
  {
    hide SlugFor, HashPrefix, Encoded;
    SlugForShape(o, a);
    SlugForShape(o, b);
    EncodedInjective(a, b);
    if IsHashed(a) {
      HashedKeyPlain(o, a);
      EncodedInjective(Key(o, a), b);
    }
    if IsHashed(b) {
      HashedKeyPlain(o, b);
      EncodedInjective(Key(o, b), a);
    }
    if IsHashed(a) && IsHashed(b) && Key(o, a) == Key(o, b) {
      SameParts(SlugFor(o, a), HashPrefix(o, a), SlugFor(o, b), HashPrefix(o, b));
    }
  }

  /** A key made of slug and digest encodes to itself and is short enough. */
  lemma HashedKeyPlain(o: Outside, cwd: Text)
    requires Lawful(o) && IsHashed(cwd)
    ensures Encoded(Key(o, cwd)) == Key(o, cwd) && !IsHashed(Key(o, cwd)) && PlainText(Key(o, cwd)) && Key(o, cwd) != []
  {
    hide SlugFor, HashPrefix, Encoded;
    SlugForShape(o, cwd);
    PlainEncodesToItself(Key(o, cwd));
  }

  /** So absolute directories share one only when they are the same or their
      slugs and digests agree. */
  lemma SameAbsoluteKeyIff(o: Outside, a: Text, b: Text)
    requires Lawful(o) && Absolute(a) && Absolute(b)
    ensures Key(o, a) == Key(o, b) <==> a == b || SameHashed(o, a, b)
  {
    hide SlugFor, HashPrefix, Encoded, Key, SameHashed, IsHashed;
    SameKeyIff(o, a, b);
    if IsHashed(a) {
      HashedKeyPlain(o, a);
    }
    if IsHashed(b) {
      HashedKeyPlain(o, b);
    }
  }

  lemma SameParts(s: Text, h: Text, s': Text, h': Text)
    requires |h| == |h'| && s + [DASH] + h == s' + [DASH] + h'
    ensures s == s' && h == h'
  {
    var t, t' := s + [DASH] + h, s' + [DASH] + h';
    assert s == t[..|t| - |h| - 1] && s' == t'[..|t'| - |h| - 1];
    assert h == t[|t| - |h|..] && h' == t'[|t'| - |h|..];
  }

  /** Relative directories are different: the key of a too-long directory,
      taken as a directory name, has that very key. */
  lemma RelativeMayCollide(o: Outside, cwd: Text)
    requires Lawful(o) && IsHashed(cwd)
    ensures Key(o, cwd) != cwd && Key(o, Key(o, cwd)) == Key(o, cwd)
  {
    hide SlugFor, HashPrefix, Encoded;
    HashedKeyPlain(o, cwd);
  }
}
