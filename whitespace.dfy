/**
 * The three whitespace operations the builder relies on: trimming, collapsing
 * every run of whitespace to one space (`replace(/\s+/g, " ")`), and cutting a
 * string into its whitespace-free words (`split(/\s+/).filter(Boolean)`).
 */
module Whitespace {
  import opened Text

  /** No whitespace anywhere in `s`. */
  predicate Solid(s: string) {
    forall i :: 0 <= i < |s| ==> !IsSpace(s[i])
  }

  /** A word: a non-empty string without whitespace. */
  predicate IsWord(s: string) {
    s != "" && Solid(s)
  }

  /** `s` neither starts nor ends with whitespace. */
  predicate NoEdgeSpace(s: string) {
    s == "" || (!IsSpace(s[0]) && !IsSpace(s[|s| - 1]))
  }

  /** No two neighbouring characters of `s` are both whitespace. */
  predicate NoSpaceRun(s: string) {
    forall i :: 0 <= i < |s| - 1 ==> !IsSpace(s[i]) || !IsSpace(s[i + 1])
  }

  /** The only whitespace character in `s` is the plain space. */
  predicate OnlyBlanks(s: string) {
    forall i :: 0 <= i < |s| ==> IsSpace(s[i]) ==> s[i] == ' '
  }

  /** Drops the leading whitespace of `s`. */
  function TrimStart(s: string): (r: string)
    ensures |r| <= |s| && r == s[|s| - |r|..]
    ensures r == "" || !IsSpace(r[0])
    ensures forall i :: 0 <= i < |s| - |r| ==> IsSpace(s[i])
    ensures s != "" && IsSpace(s[0]) ==> |r| < |s|
  {
    if s != "" && IsSpace(s[0]) then TrimStart(s[1..]) else s
  }

  /** Drops the trailing whitespace of `s`. */
  function TrimEnd(s: string): (r: string)
    ensures |r| <= |s| && r == s[..|r|]
    ensures r == "" || !IsSpace(r[|r| - 1])
    ensures forall i :: |r| <= i < |s| ==> IsSpace(s[i])
  {
    if s != "" && IsSpace(s[|s| - 1]) then TrimEnd(s[..|s| - 1]) else s
  }

  /** `String.prototype.trim`. */
  function Trim(s: string): string {
    TrimEnd(TrimStart(s))
  }

  /** The length of the whitespace-free run at the start of `s`. */
  function WordLen(s: string): (n: nat)
    ensures n <= |s|
    ensures forall i :: 0 <= i < n ==> !IsSpace(s[i])
    ensures n < |s| ==> IsSpace(s[n])
  {
    if s == "" || IsSpace(s[0]) then 0 else 1 + WordLen(s[1..])
  }

  /** `s.replace(/\s+/g, " ")`: every maximal run of whitespace becomes one space. */
  function Collapse(s: string): (r: string)
    ensures s != "" ==> r != "" && r[0] == (if IsSpace(s[0]) then ' ' else s[0])
    decreases |s|
  {
    if s == "" then ""
    else if IsSpace(s[0]) then " " + Collapse(TrimStart(s))
    else [s[0]] + Collapse(s[1..])
  }

  /** `s.split(/\s+/).filter(Boolean)`: the maximal whitespace-free runs of `s`, in order. */
  function Words(s: string): (r: seq<string>)
    ensures forall w :: w in r ==> IsWord(w)
    decreases |s|
  {
    var t := TrimStart(s);
    if t == "" then []
    else
      var n := WordLen(t);
      [t[..n]] + Words(t[n..])
  }

  /** Trimming leaves no whitespace at either end and only removes whitespace. */
  lemma TrimShape(s: string)
    ensures NoEdgeSpace(Trim(s))
    ensures forall i :: 0 <= i < |s| - |TrimStart(s)| ==> IsSpace(s[i])
    ensures forall i :: |Trim(s)| <= i < |TrimStart(s)| ==> IsSpace(TrimStart(s)[i])
  {
  }

  /** A whitespace-free prefix passes through the collapse untouched. */
  lemma {:induction false} CollapseSolid(w: string, rest: string)
    requires Solid(w)
    ensures Collapse(w + rest) == w + Collapse(rest)
    decreases |w|
  {
    if w != "" {
      var x := w + rest;
      assert x[0] == w[0] && !IsSpace(x[0]);
      assert x[1..] == w[1..] + rest;
      assert Collapse(x) == [w[0]] + Collapse(w[1..] + rest);
      assert Solid(w[1..]);
      CollapseSolid(w[1..], rest);
      calc {
        Collapse(x);
        [w[0]] + (w[1..] + Collapse(rest));
        ([w[0]] + w[1..]) + Collapse(rest);
        { assert [w[0]] + w[1..] == w; }
        w + Collapse(rest);
      }
    } else {
      assert w + rest == rest;
    }
  }

  /** Trailing whitespace is trimmed from the last part only, when that part has content. */
  lemma {:induction false} TrimEndAppend(a: string, b: string)
    requires TrimEnd(b) != ""
    ensures TrimEnd(a + b) == a + TrimEnd(b)
    decreases |b|
  {
    if IsSpace(b[|b| - 1]) {
      assert (a + b)[..|a + b| - 1] == a + b[..|b| - 1];
      TrimEndAppend(a, b[..|b| - 1]);
    }
  }

  /** The words of `s` are the words of `s` without its leading whitespace. */
  lemma WordsTrimStart(s: string)
    ensures Words(TrimStart(s)) == Words(s)
  {
    var t := TrimStart(s);
    assert TrimStart(t) == t;
  }

  /** A string that is whitespace only collapses and trims to nothing. */
  lemma BlankNormal(s: string)
    requires TrimStart(s) == ""
    ensures Trim(Collapse(s)) == ""
  {
    if s != "" {
      assert Collapse(s) == " " + Collapse("");
      assert TrimStart(" ") == TrimStart(""); 
    }
  }

  /** Leading whitespace makes no difference to the normal form. */
  lemma LeadingSpaceNormal(s: string)
    requires s != "" && IsSpace(s[0]) && TrimStart(s) != ""
    ensures Trim(Collapse(s)) == Trim(Collapse(TrimStart(s)))
  {
    var c := Collapse(TrimStart(s));
    assert Collapse(s) == " " + c;
    assert (" " + c)[1..] == c;
    assert TrimStart(c) == c;
    assert TrimStart(" " + c) == TrimStart(c);
  }

  /** A word has no whitespace to trim. */
  lemma TrimWord(w: string)
    requires IsWord(w)
    ensures Trim(w) == w
  {
    assert TrimStart(w) == w;
  }

  /** A word followed by nothing but whitespace normalises to the word. */
  lemma WordThenBlank(w: string, rest: string)
    requires IsWord(w) && TrimStart(rest) == ""
    ensures Trim(Collapse(w + rest)) == w
  {
    CollapseSolid(w, rest);
    if rest == "" {
      assert w + rest == w;
      TrimWord(w);
    } else {
      assert Collapse(rest) == " " by {
        assert Collapse(rest) == " " + Collapse("");
      }
      TrimWordSpace(w);
    }
  }

  /** A word with one space after it trims to the word. */
  lemma TrimWordSpace(w: string)
    requires IsWord(w)
    ensures Trim(w + " ") == w
  {
    TrimStartSolidHead(w + " ");
    TrimEndSpace(w);
    TrimEndWord(w);
  }

  /** A string whose first character is not whitespace has nothing to trim at the start. */
  lemma TrimStartSolidHead(s: string)
    requires s != "" && !IsSpace(s[0])
    ensures TrimStart(s) == s
  {
  }

  /** One trailing space is dropped by trimming the end. */
  lemma TrimEndSpace(s: string)
    ensures TrimEnd(s + " ") == TrimEnd(s)
  {
    assert (s + " ")[..|s|] == s;
  }

  /** A word has nothing to trim at the end. */
  lemma TrimEndWord(w: string)
    requires IsWord(w)
    ensures TrimEnd(w) == w
  {
    assert !IsSpace(w[|w| - 1]);
  }

  /** A word, whitespace, then more text: the word and one space stay in front of
      the normal form of the text. */
  lemma WordThenMore(w: string, rest: string)
    requires IsWord(w) && rest != "" && IsSpace(rest[0]) && TrimStart(rest) != ""
    ensures Trim(Collapse(w + rest)) == w + " " + Trim(Collapse(TrimStart(rest)))
  {
    CollapseSolid(w, rest);
    var c := Collapse(TrimStart(rest));
    assert Collapse(rest) == " " + c;
    assert Collapse(w + rest) == (w + " ") + c;
    assert TrimStart((w + " ") + c) == (w + " ") + c;
    assert TrimEnd(c) != "";
    TrimEndAppend(w + " ", c);
    assert TrimStart(c) == c;
  }

  /**
   * The normal form the builder renders: collapsing the whitespace runs and
   * trimming gives exactly the words of `s` joined by single spaces.
   */
  lemma {:induction false} CollapseTrimIsWords(s: string)
    ensures Trim(Collapse(s)) == Join(Words(s), " ")
    decreases |s|
  {
    var t := TrimStart(s);
    if t == "" {
      BlankWords(s);
    } else if IsSpace(s[0]) {
      CollapseTrimIsWords(t);
      LeadingSpaceWords(s);
    } else {
      var t' := TrimStart(s[WordLen(s)..]);
      if t' != "" {
        CollapseTrimIsWords(t');
      }
      WordFirstWords(s);
    }
  }

  /** A string is its two halves at any cut. */
  lemma SplitAt(s: string, n: nat)
    requires n <= |s|
    ensures s == s[..n] + s[n..]
  {
  }

  /** The step of `CollapseTrimIsWords` for a string that starts with a word. */
  lemma WordFirstWords(s: string)
    requires s != "" && !IsSpace(s[0])
    requires var t' := TrimStart(s[WordLen(s)..]);
               t' != "" ==> Trim(Collapse(t')) == Join(Words(t'), " ")
    ensures Trim(Collapse(s)) == Join(Words(s), " ")
  {
    var n := WordLen(s);
    var w, rest := s[..n], s[n..];
    SplitAt(s, n);
    assert IsWord(w) by {
      assert n > 0;
      forall i | 0 <= i < |w|
        ensures !IsSpace(w[i])
      {
        assert w[i] == s[i];
      }
    }
    assert rest == "" || IsSpace(rest[0]) by {
      if rest != "" {
        assert rest[0] == s[n];
      }
    }
    WordFirstNormal(w, rest);
  }

  /** The base case of `CollapseTrimIsWords`: a blank string has no words and
      normalises to nothing. */
  lemma BlankWords(s: string)
    requires TrimStart(s) == ""
    ensures Trim(Collapse(s)) == Join(Words(s), " ")
  {
    BlankNormal(s);
  }

  /** The step of `CollapseTrimIsWords` for a string that starts with whitespace:
      dropping the whitespace changes neither side. */
  lemma LeadingSpaceWords(s: string)
    requires s != "" && IsSpace(s[0]) && TrimStart(s) != ""
    requires Trim(Collapse(TrimStart(s))) == Join(Words(TrimStart(s)), " ")
    ensures Trim(Collapse(s)) == Join(Words(s), " ")
  {
    LeadingSpaceNormal(s);
    WordsTrimStart(s);
  }

  /** The inductive step of `CollapseTrimIsWords` for a string that starts with a
      word: given the normal form of what follows the word, the word and one space
      go in front of it. */
  lemma WordFirstNormal(w: string, rest: string)
    requires IsWord(w) && (rest == "" || IsSpace(rest[0]))
    requires TrimStart(rest) != "" ==>
               Trim(Collapse(TrimStart(rest))) == Join(Words(TrimStart(rest)), " ")
    ensures Trim(Collapse(w + rest)) == Join(Words(w + rest), " ")
  {
    var t' := TrimStart(rest);
    assert Words(w + rest) == [w] + Words(t') by {
      WordsAfterWord(w, rest);
      WordsTrimStart(rest);
    }
    if t' == "" {
      assert Trim(Collapse(w + rest)) == w by {
        WordThenBlank(w, rest);
      }
    } else {
      assert Trim(Collapse(w + rest)) == w + " " + Trim(Collapse(t')) by {
        WordThenMore(w, rest);
      }
      JoinCons(w, Words(t'), " ");
    }
  }

  /** Words joined by single spaces have the normal shape: no whitespace at the
      ends, no two whitespace characters side by side, and only plain spaces. */
  lemma {:induction false} JoinWordsShape(ws: seq<string>)
    requires forall w :: w in ws ==> IsWord(w)
    ensures ws != [] ==> Join(ws, " ") != ""
    ensures NoEdgeSpace(Join(ws, " "))
    ensures NoSpaceRun(Join(ws, " "))
    ensures OnlyBlanks(Join(ws, " "))
  {
    if |ws| == 1 {
      assert ws[0] in ws;
    } else if |ws| > 1 {
      var w, rest := ws[0], ws[1..];
      assert w in ws;
      assert forall x :: x in rest ==> x in ws;
      JoinWordsShape(rest);
      JoinCons(w, rest, " ");
      assert ws == [w] + rest;
      var j := Join(rest, " ");
      var r := w + " " + j;
      assert r[0] == w[0];
      assert r[|r| - 1] == j[|j| - 1];
      forall i | 0 <= i < |r|
        ensures IsSpace(r[i]) ==> r[i] == ' '
      {
        if i < |w| {
          assert r[i] == w[i];
        } else if i > |w| {
          assert r[i] == j[i - |w| - 1];
        }
      }
      forall i | 0 <= i < |r| - 1
        ensures !IsSpace(r[i]) || !IsSpace(r[i + 1])
      {
        if i < |w| {
          assert r[i] == w[i];
        } else if i == |w| {
          assert r[i + 1] == j[0];
        } else {
          assert r[i] == j[i - |w| - 1];
          assert r[i + 1] == j[i + 1 - |w| - 1];
        }
      }
    }
  }

  /** A word followed by whitespace or by nothing is the leading run of the string. */
  lemma WordLenAfterWord(w: string, rest: string)
    requires IsWord(w) && (rest == "" || IsSpace(rest[0]))
    ensures WordLen(w + rest) == |w|
  {
    var s := w + rest;
    assert s[..|w|] == w;
  }

  /** A word followed by whitespace or by nothing is the first word. */
  lemma WordsAfterWord(w: string, rest: string)
    requires IsWord(w) && (rest == "" || IsSpace(rest[0]))
    ensures Words(w + rest) == [w] + Words(rest)
  {
    var s := w + rest;
    assert TrimStart(s) == s by {
      assert s[0] == w[0];
    }
    WordLenAfterWord(w, rest);
    assert s[..|w|] == w && s[|w|..] == rest;
  }

  /** A single space in front changes no word. */
  lemma WordsAfterSpace(j: string)
    requires j == "" || !IsSpace(j[0])
    ensures Words(" " + j) == Words(j)
  {
    assert (" " + j)[1..] == j;
    assert TrimStart(" " + j) == TrimStart(j) == j;
    WordsTrimStart(" " + j);
  }

  /** Words joined by single spaces split back into the same words. */
  lemma {:induction false} WordsOfJoin(ws: seq<string>)
    requires forall w :: w in ws ==> IsWord(w)
    ensures Words(Join(ws, " ")) == ws
  {
    if ws == [] {
    } else if |ws| == 1 {
      var w := ws[0];
      assert w in ws;
      assert ws == [w];
      WordsAfterWord(w, "");
      assert w + "" == w;
    } else {
      var w, rest := ws[0], ws[1..];
      var j := Join(rest, " ");
      assert w + " " + j == w + (" " + j);
      assert w in ws;
      assert ws == [w] + rest;
      assert forall x :: x in rest ==> x in ws;
      JoinCons(w, rest, " ");
      WordsOfJoin(rest);
      JoinWordsShape(rest);
      WordsAfterWord(w, " " + j);
      WordsAfterSpace(j);
    }
  }
}
