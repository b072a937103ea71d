/**
 * The string operations both search endpoints use on their input:
 * Python's str.split(","), str.strip(), str.lower(), the substring test
 * behind ILIKE '%...%', and the normalisation `i.strip().lower()` applied
 * to every comma-separated query piece.
 */
module Text {

  /** Python's str.isspace() for a single character. */
  predicate IsSpace(c: char) {
    || c == ' '
    || ('\t' <= c <= '\r')
    || ('\U{001C}' <= c <= '\U{001F}')
    || c == '\U{0085}' || c == '\U{00A0}' || c == '\U{1680}'
    || ('\U{2000}' <= c <= '\U{200A}')
    || c == '\U{2028}' || c == '\U{2029}' || c == '\U{202F}'
    || c == '\U{205F}' || c == '\U{3000}'
  }

  /** The upper-case letters LowerChar maps: ASCII A-Z, Latin-1 U+00C0-U+00DE except U+00D7, and Cyrillic U+0400-U+042F. */
  predicate IsUpper(c: char) {
    || ('A' <= c <= 'Z')
    || ('\U{00C0}' <= c <= '\U{00DE}' && c != '\U{00D7}')
    || ('\U{0400}' <= c <= '\U{042F}')
  }

  /** Lower-case mapping of one character (the part of Python's case table the data uses). */
  function LowerChar(c: char): (d: char)
    ensures !IsUpper(d)
    ensures !IsUpper(c) ==> d == c
    ensures IsSpace(d) == IsSpace(c)
  {
    if '\U{0400}' <= c <= '\U{040F}' then (c as int + 80) as char
    else if IsUpper(c) then (c as int + 32) as char
    else c
  }

  /** Python's str.lower(), character by character. */
  function Lower(s: string): (r: string) {
    seq(|s|, i requires 0 <= i < |s| => LowerChar(s[i]))
  }

  /** A string Lower leaves as it is. */
  predicate IsLower(s: string) {
    forall i :: 0 <= i < |s| ==> !IsUpper(s[i])
  }

  lemma LowerIsLower(s: string)
    ensures IsLower(Lower(s))
    ensures IsLower(s) ==> Lower(s) == s
  {
  }

  /** Lower-casing twice is lower-casing once. */
  lemma LowerIdempotent(s: string)
    ensures Lower(Lower(s)) == Lower(s)
  {
    LowerIsLower(s);
  }

  /** Python's str.lstrip(): drop leading whitespace. */
  function StripStart(s: string): string {
    if |s| > 0 && IsSpace(s[0]) then StripStart(s[1..]) else s
  }

  /** Python's str.rstrip(): drop trailing whitespace. */
  function StripEnd(s: string): string {
    if |s| > 0 && IsSpace(s[|s| - 1]) then StripEnd(s[..|s| - 1]) else s
  }

  /** Python's str.strip(): drop whitespace at both ends. */
  function Strip(s: string): string {
    StripEnd(StripStart(s))
  }

  /** No whitespace at either end. */
  predicate IsStripped(s: string) {
    s == [] || (!IsSpace(s[0]) && !IsSpace(s[|s| - 1]))
  }

  /** lstrip keeps a suffix after a whitespace-only prefix, and that suffix does not start with whitespace. */
  lemma {:induction false} StripStartSuffix(s: string)
    ensures |StripStart(s)| <= |s| && StripStart(s) == s[|s| - |StripStart(s)|..]
    ensures forall i :: 0 <= i < |s| - |StripStart(s)| ==> IsSpace(s[i])
    ensures StripStart(s) == [] || !IsSpace(StripStart(s)[0])
  {
    if |s| > 0 && IsSpace(s[0]) {
      StripStartSuffix(s[1..]);
    }
  }

  /** rstrip keeps a prefix before a whitespace-only suffix, and that prefix does not end with whitespace. */
  lemma {:induction false} StripEndPrefix(s: string)
    ensures |StripEnd(s)| <= |s| && StripEnd(s) == s[..|StripEnd(s)|]
    ensures forall i :: |StripEnd(s)| <= i < |s| ==> IsSpace(s[i])
    ensures StripEnd(s) == [] || !IsSpace(StripEnd(s)[|StripEnd(s)| - 1])
  {
    if |s| > 0 && IsSpace(s[|s| - 1]) {
      StripEndPrefix(s[..|s| - 1]);
      assert s[..|s| - 1][..|StripEnd(s)|] == s[..|StripEnd(s)|];
    }
  }

  /**
   * Strip keeps exactly the infix s[i..j] between a whitespace-only prefix
   * and a whitespace-only suffix, and that infix has no whitespace at its ends.
   */
  lemma StripIsInfix(s: string)
    ensures IsStripped(Strip(s))
    ensures exists i, j :: 0 <= i <= j <= |s| && Strip(s) == s[i..j]
              && (forall k :: 0 <= k < i ==> IsSpace(s[k]))
              && (forall k :: j <= k < |s| ==> IsSpace(s[k]))
  {
    var t := StripStart(s);
    StripStartSuffix(s);
    var r := StripEnd(t);
    StripEndPrefix(t);
    var i := |s| - |t|;
    var j := i + |r|;
    assert r == s[i..j];
    if r != [] {
      assert r[0] == t[0];
    }
    assert forall k :: j <= k < |s| ==> s[k] == t[k - i];
  }

  /** A string without whitespace at its ends is left as it is by Strip. */
  lemma StripStripped(s: string)
    requires IsStripped(s)
    ensures Strip(s) == s
  {
  }

  /** Stripping twice is stripping once. */
  lemma StripIdempotent(s: string)
    ensures Strip(Strip(s)) == Strip(s)
  {
    StripIsInfix(s);
    StripStripped(Strip(s));
  }

  /** Lower never moves whitespace, so it keeps a stripped string stripped. */
  lemma LowerKeepsStripped(s: string)
    requires IsStripped(s)
    ensures IsStripped(Lower(s))
  {
  }

  /** Python's str.split(","): the pieces between commas, empty pieces included. */
  function Split(s: string): (r: seq<string>)
    ensures |r| >= 1
    ensures forall k :: 0 <= k < |r| ==> ',' !in r[k]
  {
    if s == [] then [""]
    else
      var rest := Split(s[1..]);
      if s[0] == ',' then [""] + rest
      else [[s[0]] + rest[0]] + rest[1..]
  }

  /** Python's ",".join(pieces); the empty list joins to "". */
  function Join(pieces: seq<string>): string {
    if |pieces| == 0 then "" else if |pieces| == 1 then pieces[0] else pieces[0] + "," + Join(pieces[1..])
  }

  /** Joining the pieces of a split gives back the string. */
  lemma {:induction false} JoinSplit(s: string)
    ensures Join(Split(s)) == s
  {
    if s != [] {
      var rest := Split(s[1..]);
      JoinSplit(s[1..]);
      if s[0] == ',' {
        assert Split(s) == [""] + rest;
        assert ([""] + rest)[1..] == rest;
      } else if |rest| > 1 {
        var first := [s[0]] + rest[0];
        assert Split(s) == [first] + rest[1..];
        assert ([first] + rest[1..])[1..] == rest[1..];
        assert Join(rest) == rest[0] + "," + Join(rest[1..]);
      } else {
        assert Split(s) == [[s[0]] + rest[0]];
      }
    }
  }

  /** A comma-free prefix joins the first piece of what follows it. */
  lemma {:induction false} SplitPrefix(p: string, t: string)
    requires ',' !in p
    ensures Split(p + t) == [p + Split(t)[0]] + Split(t)[1..]
  {
    if p != [] {
      assert (p + t)[1..] == p[1..] + t;
      SplitPrefix(p[1..], t);
      assert [p[0]] + (p[1..] + Split(t)[0]) == p + Split(t)[0];
    } else {
      assert p + t == t;
      assert p + Split(t)[0] == Split(t)[0];
    }
  }

  /** Splitting a join of comma-free pieces gives back the pieces. */
  lemma {:induction false} SplitJoin(pieces: seq<string>)
    requires |pieces| >= 1
    requires forall k :: 0 <= k < |pieces| ==> ',' !in pieces[k]
    ensures Split(Join(pieces)) == pieces
  {
    var p := pieces[0];
    if |pieces| == 1 {
      SplitPrefix(p, "");
      assert p + "" == p;
    } else {
      var rest := Join(pieces[1..]);
      SplitJoin(pieces[1..]);
      assert Join(pieces) == p + ("," + rest);
      SplitPrefix(p, "," + rest);
      assert Split("," + rest) == [""] + Split(rest) by {
        assert ("," + rest)[1..] == rest;
      }
      assert p + "" == p;
    }
  }

  /** `i.strip().lower()`: how every query piece is normalised. */
  function Normalize(piece: string): string {
    Lower(Strip(piece))
  }

  /** A normalised token is stripped and lower-case, so normalising it again changes nothing. */
  lemma NormalizeIdempotent(piece: string)
    ensures IsStripped(Normalize(piece)) && IsLower(Normalize(piece))
    ensures Normalize(Normalize(piece)) == Normalize(piece)
  {
    var t := Strip(piece);
    StripIsInfix(piece);
    LowerKeepsStripped(t);
    StripStripped(Lower(t));
    LowerIsLower(t);
    LowerIdempotent(t);
  }

  /** Each piece normalised, in order. */
  function NormalizeAll(pieces: seq<string>): (r: seq<string>) {
    seq(|pieces|, k requires 0 <= k < |pieces| => Normalize(pieces[k]))
  }

  /** `[i.strip().lower() for i in s.split(",")]`: one token per comma piece, empty ones kept. */
  function Tokens(s: string): (r: seq<string>)
    ensures |r| >= 1
  {
    NormalizeAll(Split(s))
  }

  /** A word written in lower-case letters is its own token. */
  lemma LowerWordIsToken(w: string)
    requires IsStripped(w) && IsLower(w)
    ensures Normalize(w) == w
  {
    StripStripped(w);
    LowerIsLower(w);
  }
  /** Joining comma-free words that are their own tokens and splitting again gives the words back. */
  lemma TokensOfJoin(words: seq<string>)
    requires |words| >= 1
    requires forall k :: 0 <= k < |words| ==> ',' !in words[k] && Normalize(words[k]) == words[k]
    ensures Tokens(Join(words)) == words
  {
    SplitJoin(words);
  }
  /** The set of a list, as Python's set(list). */
  function Elements(xs: seq<string>): set<string> {
    set x | x in xs
  }

  /** s begins with p. */
  predicate StartsWith(s: string, p: string) {
    |p| <= |s| && s[..|p|] == p
  }

  /** sub occurs somewhere in s (the pattern '%sub%'). */
  predicate Contains(s: string, sub: string) {
    StartsWith(s, sub) || (|s| > 0 && Contains(s[1..], sub))
  }

  /** sub occurs in s at position i. */
  predicate OccursAt(s: string, sub: string, i: int) {
    0 <= i && i + |sub| <= |s| && s[i..i + |sub|] == sub
  }

  /** Contains means: sub occurs in s at some position. */
  lemma {:induction false} ContainsAt(s: string, sub: string)
    ensures Contains(s, sub) <==> exists i :: OccursAt(s, sub, i)
  {
    if StartsWith(s, sub) {
      assert OccursAt(s, sub, 0);
    } else if |s| > 0 {
      ContainsAt(s[1..], sub);
      if Contains(s[1..], sub) {
        var i :| OccursAt(s[1..], sub, i);
        assert OccursAt(s, sub, i + 1);
      }
      if i :| OccursAt(s, sub, i) {
        assert i != 0;
        assert OccursAt(s[1..], sub, i - 1);
      }
    }
  }
}
