/** The string operations of the Rust standard library that normalisation uses. */
module Text {

  /** The characters with the Unicode property White_Space. */
  predicate IsWhitespace(c: char) {
    '\U{9}' <= c <= '\U{D}' || c == ' ' || c == '\U{85}' || c == '\U{A0}' || c == '\U{1680}'
    || '\U{2000}' <= c <= '\U{200A}' || c == '\U{2028}' || c == '\U{2029}' || c == '\U{202F}'
    || c == '\U{205F}' || c == '\U{3000}'
  }

  function TrimStart(s: string): (t: string)
    ensures t == [] || !IsWhitespace(t[0])
    ensures forall c :: c in t ==> c in s
  {
    if s == [] then [] else if IsWhitespace(s[0]) then TrimStart(s[1..]) else s
  }

  function TrimEnd(s: string): (t: string)
    ensures t <= s
    ensures t == [] || !IsWhitespace(t[|t| - 1])
  {
    if s == [] then [] else if IsWhitespace(s[|s| - 1]) then TrimEnd(s[..|s| - 1]) else s
  }

  function Trim(s: string): string {
    TrimEnd(TrimStart(s))
  }

  /** Nothing to trim at either end. */
  predicate IsTrimmed(s: string) {
    s == [] || (!IsWhitespace(s[0]) && !IsWhitespace(s[|s| - 1]))
  }

  lemma TrimIsTrimmed(s: string)
    ensures IsTrimmed(Trim(s))
    ensures IsTrimmed(s) ==> Trim(s) == s
    ensures Trim(Trim(s)) == Trim(s)
  {
  }

  /** The bytes a character takes in UTF-8. */
  function Utf8Width(c: char): nat {
    if c < '\U{80}' then 1 else if c < '\U{800}' then 2 else if c < '\U{10000}' then 3 else 4
  }

  function Utf8Length(s: string): nat {
    if s == [] then 0 else Utf8Length(s[..|s| - 1]) + Utf8Width(s[|s| - 1])
  }

  lemma {:induction false} PrefixIsShorter(t: string, s: string)
    requires t <= s
    ensures Utf8Length(t) <= Utf8Length(s)
    decreases |s|
  {
    if t != s {
      assert t <= s[..|s| - 1];
      PrefixIsShorter(t, s[..|s| - 1]);
    }
  }

  lemma {:induction false} Utf8LengthOfCons(c: char, s: string)
    ensures Utf8Length([c] + s) == Utf8Width(c) + Utf8Length(s)
  {
    if s == [] {
      assert [c] + s == [c] && [c][..0] == [];
      assert Utf8Length([c]) == Utf8Length([]) + Utf8Width(c);
    } else {
      var n := |s| - 1;
      assert ([c] + s)[..n + 1] == [c] + s[..n];
      Utf8LengthOfCons(c, s[..n]);
    }
  }

  lemma {:induction false} TrimStartIsShorter(s: string)
    ensures Utf8Length(TrimStart(s)) <= Utf8Length(s)
  {
    if s != [] && IsWhitespace(s[0]) {
      TrimStartIsShorter(s[1..]);
      Utf8LengthOfCons(s[0], s[1..]);
      assert s == [s[0]] + s[1..];
    }
  }

  /** Trimming never makes a string longer in UTF-8. */
  lemma TrimIsShorter(s: string)
    ensures Utf8Length(Trim(s)) <= Utf8Length(s)
  {
    TrimStartIsShorter(s);
    PrefixIsShorter(Trim(s), TrimStart(s));
  }

  function UpperChar(c: char): char {
    if 'a' <= c <= 'z' then c - 'a' + 'A' else c
  }

  /** `to_uppercase`, for the ASCII strings it is used on. */
  function Upper(s: string): (t: string)
    ensures |t| == |s|
    ensures forall k :: 0 <= k < |s| ==> t[k] == UpperChar(s[k])
  {
    seq(|s|, k requires 0 <= k < |s| => UpperChar(s[k]))
  }

  predicate SameIgnoringCase(a: string, b: string) {
    Upper(a) == Upper(b)
  }
}
