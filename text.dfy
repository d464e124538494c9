/** The two pieces of Rust's string library the console relies on:
 *  `str::trim`, which strips Unicode white space from both ends, and the
 *  lower-casing used to read yes/no answers. */
module Text {

  /** The characters with the Unicode White_Space property, which is what
   *  `char::is_whitespace` (and therefore `str::trim`) tests. */
  predicate IsWhitespace(c: char)
  {
    || ('\t' <= c <= '\r')
    || c == ' '
    || c == '\U{0085}' || c == '\U{00A0}' || c == '\U{1680}'
    || ('\U{2000}' <= c <= '\U{200A}')
    || c == '\U{2028}' || c == '\U{2029}' || c == '\U{202F}' || c == '\U{205F}'
    || c == '\U{3000}'
  }

  /** `s` with its leading white space removed. */
  function TrimStart(s: string): string
    decreases |s|
  {
    if s != [] && IsWhitespace(s[0]) then TrimStart(s[1..]) else s
  }

  /** `s` with its trailing white space removed. */
  function TrimEnd(s: string): string
    decreases |s|
  {
    if s != [] && IsWhitespace(s[|s| - 1]) then TrimEnd(s[..|s| - 1]) else s
  }

  /** `str::trim`. */
  function Trim(s: string): string
  {
    TrimEnd(TrimStart(s))
  }

  /** `TrimStart` drops white space from the front, and only that, up to the
   *  first character that is not white space. */
  lemma {:induction false} TrimStartDrops(s: string)
    ensures var r := TrimStart(s);
      && |r| <= |s| && r == s[|s| - |r|..]
      && (forall i :: 0 <= i < |s| - |r| ==> IsWhitespace(s[i]))
      && (r == [] || !IsWhitespace(r[0]))
    decreases |s|
  {
    if s != [] && IsWhitespace(s[0]) {
      TrimStartDrops(s[1..]);
      var r := TrimStart(s);
      assert s[1..][|s| - 1 - |r|..] == s[|s| - |r|..];
    }
  }

  /** `TrimEnd` drops white space from the back, and only that, down to the
   *  last character that is not white space. */
  lemma {:induction false} TrimEndDrops(s: string)
    ensures var r := TrimEnd(s);
      && |r| <= |s| && r == s[..|r|]
      && (forall i :: |r| <= i < |s| ==> IsWhitespace(s[i]))
      && (r == [] || !IsWhitespace(r[|r| - 1]))
    decreases |s|
  {
    if s != [] && IsWhitespace(s[|s| - 1]) {
      TrimEndDrops(s[..|s| - 1]);
      var r := TrimEnd(s);
      assert s[..|s| - 1][..|r|] == s[..|r|];
    }
  }

  /** `Trim(s)` is the slice of `s` left when the white space at both ends is
   *  dropped: everything before and after it is white space, and it neither
   *  starts nor ends with white space; it is empty exactly when `s` is all
   *  white space. */
  lemma TrimSpec(s: string)
    ensures |TrimStart(s)| <= |s|
    ensures var r := Trim(s);
      var k := |s| - |TrimStart(s)|;
      && 0 <= k && k + |r| <= |s| && r == s[k..k + |r|]
      && (forall i :: 0 <= i < k ==> IsWhitespace(s[i]))
      && (forall i :: k + |r| <= i < |s| ==> IsWhitespace(s[i]))
      && (r != [] ==> !IsWhitespace(r[0]) && !IsWhitespace(r[|r| - 1]))
      && (r == [] <==> forall i :: 0 <= i < |s| ==> IsWhitespace(s[i]))
  {
    var t := TrimStart(s);
    var k := |s| - |t|;
    TrimStartDrops(s);
    TrimEndDrops(t);
    var r := Trim(s);
    assert r == t[..|r|];
    forall i | k + |r| <= i < |s|
      ensures IsWhitespace(s[i])
    {
      assert s[i] == t[i - k];
    }
    if r != [] {
      assert r[0] == t[0];
    }
  }

  /** Trimming a text padded with white space on both sides gives back the
   *  text itself, provided the text neither starts nor ends with white space. */
  lemma {:induction false} TrimPadded(before: string, core: string, after: string)
    requires forall i :: 0 <= i < |before| ==> IsWhitespace(before[i])
    requires forall i :: 0 <= i < |after| ==> IsWhitespace(after[i])
    requires core != [] ==> !IsWhitespace(core[0]) && !IsWhitespace(core[|core| - 1])
    ensures Trim(before + core + after) == core
  {
    var s := before + core + after;
    var t := TrimStart(s);
    TrimStartDrops(s);
    TrimEndDrops(t);
    if core == [] {
      assert forall i :: 0 <= i < |s| ==> IsWhitespace(s[i]) by {
        forall i | 0 <= i < |s| ensures IsWhitespace(s[i]) {
          if i < |before| { assert s[i] == before[i]; } else { assert s[i] == after[i - |before|]; }
        }
      }
    } else {
      // TrimStart stops exactly at the first character of `core`.
      assert !IsWhitespace(s[|before|]);
      assert |t| == |s| - |before|;
      assert t == core + after;
      var r := TrimEnd(t);
      assert !IsWhitespace(t[|core| - 1]);
      assert |r| == |core|;
    }
  }

  /** A word that neither starts nor ends with white space trims to itself,
   *  alone and on a line of its own. */
  lemma TrimWord(word: string)
    requires word != [] && !IsWhitespace(word[0]) && !IsWhitespace(word[|word| - 1])
    ensures Trim(word) == word && Trim(word + "\n") == word
  {
    TrimPadded([], word, []);
    assert [] + word + [] == word;
    TrimPadded([], word, "\n");
    assert [] + word + "\n" == word + "\n";
  }

  /** Trimming twice is trimming once. */
  lemma TrimIdempotent(s: string)
    ensures Trim(Trim(s)) == Trim(s)
  {
    TrimSpec(s);
    TrimPadded([], Trim(s), []);
    assert [] + Trim(s) + [] == Trim(s);
  }

  /** The lower-case form of an ASCII letter; every other character is kept. */
  function ToLowerChar(c: char): char
  {
    if 'A' <= c <= 'Z' then (c as int - 'A' as int + 'a' as int) as char else c
  }

  /** Lower-casing as `str::to_lowercase` does it on ASCII letters. */
  function ToLower(s: string): string
    decreases |s|
  {
    if s == [] then [] else [ToLowerChar(s[0])] + ToLower(s[1..])
  }

  /** Lower-casing works character by character. */
  lemma {:induction false} ToLowerSpec(s: string)
    ensures |ToLower(s)| == |s|
    ensures forall i :: 0 <= i < |s| ==> ToLower(s)[i] == ToLowerChar(s[i])
    decreases |s|
  {
    if s != [] {
      ToLowerSpec(s[1..]);
    }
  }

  /** Lower-casing a lower-cased text changes nothing. */
  lemma ToLowerIdempotent(s: string)
    ensures ToLower(ToLower(s)) == ToLower(s)
  {
    ToLowerSpec(s);
    ToLowerSpec(ToLower(s));
  }

  /** Lower-casing neither creates nor removes white space, so trimming and
   *  lower-casing can be done in either order. */
  lemma {:induction false} TrimStartToLower(s: string)
    ensures TrimStart(ToLower(s)) == ToLower(TrimStart(s))
    decreases |s|
  {
    ToLowerSpec(s);
    if s == [] {
      assert ToLower(s) == [];
    } else if IsWhitespace(s[0]) {
      assert ToLower(s)[0] == s[0];
      ToLowerSpec(s[1..]);
      assert ToLower(s)[1..] == ToLower(s[1..]);
      TrimStartToLower(s[1..]);
    } else {
      assert !IsWhitespace(ToLower(s)[0]);
    }
  }

  lemma {:induction false} TrimEndToLower(s: string)
    ensures TrimEnd(ToLower(s)) == ToLower(TrimEnd(s))
    decreases |s|
  {
    ToLowerSpec(s);
    if s != [] && IsWhitespace(s[|s| - 1]) {
      ToLowerSpec(s[..|s| - 1]);
      assert ToLower(s)[..|s| - 1] == ToLower(s[..|s| - 1]);
      TrimEndToLower(s[..|s| - 1]);
    }
  }

  lemma TrimToLower(s: string)
    ensures Trim(ToLower(s)) == ToLower(Trim(s))
  {
    TrimStartToLower(s);
    TrimEndToLower(TrimStart(s));
  }
}
