/**
 * Strings as the builder handles them: ASCII letter case, joining a list of
 * strings with a separator, and splitting a string on a separator the way
 * `String.prototype.split` does when given a string.
 */
module Text {
  import opened Wrappers

  /** The whitespace of the model: the space and the ASCII controls tab, line feed,
      vertical tab, form feed and carriage return (U+0009 to U+000D). */
  predicate IsSpace(c: char) {
    c == ' ' || '\t' <= c <= '\r'
  }

  predicate IsUpperChar(c: char) { 'A' <= c <= 'Z' }

  predicate IsLowerChar(c: char) { 'a' <= c <= 'z' }

  function LowerChar(c: char): char {
    if IsUpperChar(c) then (c as int + 32) as char else c
  }

  function UpperChar(c: char): char {
    if IsLowerChar(c) then (c as int - 32) as char else c
  }

  /** `toLowerCase` restricted to ASCII: every upper-case letter becomes lower case,
      every other character is kept. */
  function Lower(s: string): (r: string)
    ensures |r| == |s|
    ensures forall i :: 0 <= i < |s| ==> r[i] == LowerChar(s[i])
  {
    if s == "" then "" else [LowerChar(s[0])] + Lower(s[1..])
  }

  /** `toUpperCase` restricted to ASCII. */
  function Upper(s: string): (r: string)
    ensures |r| == |s|
    ensures forall i :: 0 <= i < |s| ==> r[i] == UpperChar(s[i])
  {
    if s == "" then "" else [UpperChar(s[0])] + Upper(s[1..])
  }

  /** A lower-cased string has no upper-case letter, and lower-casing it again changes nothing. */
  lemma LowerIsLower(s: string)
    ensures forall i :: 0 <= i < |s| ==> !IsUpperChar(Lower(s)[i])
    ensures Lower(Lower(s)) == Lower(s)
  {
  }

  /** Upper-casing first does not matter once the string is lower-cased. */
  lemma LowerOfUpper(s: string)
    ensures Lower(Upper(s)) == Lower(s)
  {
  }

  /** An upper-cased string has no lower-case letter, and upper-casing it again changes nothing. */
  lemma UpperIsUpper(s: string)
    ensures forall i :: 0 <= i < |s| ==> !IsLowerChar(Upper(s)[i])
    ensures Upper(Upper(s)) == Upper(s)
  {
  }

  lemma LowerAppend(a: string, b: string)
    ensures Lower(a + b) == Lower(a) + Lower(b)
  {
  }

  /** `Array.prototype.join`: the parts in order with `sep` between neighbours;
      an empty list joins to the empty string. */
  function Join(parts: seq<string>, sep: string): string
  {
    if parts == [] then ""
    else if |parts| == 1 then parts[0]
    else parts[0] + sep + Join(parts[1..], sep)
  }

  /** Joining a first part onto a non-empty rest puts exactly one separator between them. */
  lemma JoinCons(p: string, rest: seq<string>, sep: string)
    requires rest != []
    ensures Join([p] + rest, sep) == p + sep + Join(rest, sep)
  {
    assert ([p] + rest)[1..] == rest;
  }

  /** `pat` occurs in `s` at position `k`. */
  predicate IsAt(s: string, pat: string, k: nat) {
    k + |pat| <= |s| && s[k..k + |pat|] == pat
  }

  /** `pat` occurs somewhere in `s` (as `String.prototype.includes`). */
  predicate Occurs(s: string, pat: string) {
    exists k: nat :: k <= |s| && IsAt(s, pat, k)
  }

  /** `s.indexOf(pat, from)`: the first occurrence of `pat` at or after `from`. */
  function FirstAt(s: string, pat: string, from: nat): (r: Option<nat>)
    ensures r.Some? ==> from <= r.value && IsAt(s, pat, r.value)
    ensures forall j: nat :: from <= j && (r.None? || j < r.value) ==> !IsAt(s, pat, j)
    decreases |s| - from
  {
    if from + |pat| > |s| then None
    else if IsAt(s, pat, from) then Some(from)
    else FirstAt(s, pat, from + 1)
  }

  /** `s.split("")`: one single-character string per character. */
  function Chars(s: string): (r: seq<string>)
    ensures |r| == |s|
    ensures forall i :: 0 <= i < |s| ==> r[i] == [s[i]]
  {
    if s == "" then [] else [[s[0]]] + Chars(s[1..])
  }

  /** `s.split(sep)` for a string separator: the pieces between the non-overlapping
      occurrences of `sep`, found from left to right; an empty separator splits
      into characters. */
  function Split(s: string, sep: string): (r: seq<string>)
    ensures sep != "" ==> r != []
    decreases |s|
  {
    if sep == "" then Chars(s)
    else match FirstAt(s, sep, 0)
      case None => [s]
      case Some(i) => [s[..i]] + Split(s[i + |sep|..], sep)
  }

  lemma {:induction false} JoinChars(s: string)
    ensures Join(Chars(s), "") == s
    decreases |s|
  {
    if |s| == 1 {
      assert Chars(s) == [s] by {
        assert s == [s[0]] && s[1..] == "";
      }
    } else if |s| > 1 {
      var head, rest := [s[0]], Chars(s[1..]);
      assert Chars(s) == [head] + rest;
      assert Join(rest, "") == s[1..] by {
        JoinChars(s[1..]);
      }
      assert Join([head] + rest, "") == head + Join(rest, "") by {
        JoinCons(head, rest, "");
        assert head + "" == head;
      }
      assert head + s[1..] == s;
    }
  }

  /** Splitting on `sep` and joining the pieces back with `sep` gives the string back. */
  lemma {:induction false} SplitJoin(s: string, sep: string)
    ensures Join(Split(s, sep), sep) == s
    decreases |s|
  {
    if sep == "" {
      JoinChars(s);
    } else {
      match FirstAt(s, sep, 0)
      case None =>
      case Some(i) =>
        var rest := s[i + |sep|..];
        SplitJoin(rest, sep);
        JoinCons(s[..i], Split(rest, sep), sep);
        assert s == s[..i] + s[i..i + |sep|] + rest;
    }
  }

  /** The text before the first occurrence of `pat` does not contain `pat`. */
  lemma BeforeFirst(s: string, pat: string, i: nat)
    requires pat != "" && i <= |s|
    requires forall j: nat :: j < i ==> !IsAt(s, pat, j)
    ensures !Occurs(s[..i], pat)
  {
    forall k: nat | k <= i && IsAt(s[..i], pat, k)
      ensures false
    {
      assert s[..i][k..k + |pat|] == s[k..k + |pat|];
      assert IsAt(s, pat, k);
    }
  }

  /** No piece of a split on a non-empty separator contains the separator. */
  lemma {:induction false} SplitPiecesFree(s: string, sep: string)
    requires sep != ""
    ensures forall p :: p in Split(s, sep) ==> !Occurs(p, sep)
    decreases |s|
  {
    match FirstAt(s, sep, 0)
    case None =>
      assert Split(s, sep) == [s];
    case Some(i) =>
      var rest := s[i + |sep|..];
      var tail := Split(rest, sep);
      SplitPiecesFree(rest, sep);
      BeforeFirst(s, sep, i);
      assert Split(s, sep) == [s[..i]] + tail;
      forall p | p in [s[..i]] + tail
        ensures !Occurs(p, sep)
      {
        if p != s[..i] {
          assert p in tail;
        }
      }
  }

  /** A string without the separator splits into itself alone. */
  lemma SplitWithout(s: string, sep: string)
    requires sep != "" && !Occurs(s, sep)
    ensures Split(s, sep) == [s]
  {
  }
}
