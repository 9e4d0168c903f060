/**
 * The documented uses of the builder, each stated on a fresh builder, with the
 * string or token list it produces as its postcondition.
 */
module Scenarios {
  import opened Wrappers
  import opened Text
  import opened Whitespace
  import opened Tokens
  import opened Render
  import opened Builder

  /** A single word renders as itself between prefix and suffix. */
  lemma RenderWord(w: string, s: Settings)
    requires IsWord(w)
    ensures Build([w], s) == s.prefix + w + s.suffix
  {
    CoreIsWords([w], s.separator);
    WordsAfterWord(w, "");
    assert w + "" == w;
  }

  /** Words already joined by single spaces render unchanged, as one token. */
  lemma RenderSpaced(ws: seq<string>, s: Settings)
    requires forall w :: w in ws ==> IsWord(w)
    ensures Build([Join(ws, " ")], s) == s.prefix + Join(ws, " ") + s.suffix
  {
    CoreIsWords([Join(ws, " ")], s.separator);
    WordsOfJoin(ws);
  }

  /** The keys of three entries whose middle one is falsy. */
  lemma ThreeEntries(a: string, b: string, c: string)
    ensures TruthyKeys([(a, true), (b, false), (c, true)]) == [a, c]
  {
    var e1 := [(a, true)];
    var e2 := [(a, true), (b, false)];
    var e3 := [(a, true), (b, false), (c, true)];
    assert TruthyKeys(e1) == [a] by {
      assert e1[..0] == [];
    }
    assert TruthyKeys(e2) == [a] by {
      assert e2[..1] == e1;
    }
    assert e3[..2] == e2;
  }

  /** Leading whitespace followed by a word trims to the word. */
  lemma {:induction false} TrimStartAppend(gap: string, y: string)
    requires TrimStart(gap) == "" && IsWord(y)
    ensures TrimStart(gap + y) == y
    decreases |gap|
  {
    if gap == "" {
      assert gap + y == y;
    } else {
      assert (gap + y)[1..] == gap[1..] + y;
      TrimStartAppend(gap[1..], y);
    }
  }

  /** Whitespace followed by one word holds just that word. */
  lemma WordsOfGapWord(gap: string, y: string)
    requires IsWord(y) && TrimStart(gap) == ""
    ensures Words(gap + y) == [y]
  {
    TrimStartAppend(gap, y);
    WordsTrimStart(gap + y);
    WordsAfterWord(y, "");
    assert y + "" == y;
  }

  /** Two words apart by whitespace are the words of the string they make. */
  lemma WordsOfGap(x: string, gap: string, y: string)
    requires IsWord(x) && IsWord(y)
    requires gap != "" && TrimStart(gap) == ""
    ensures Words(x + gap + y) == [x, y]
  {
    var rest := gap + y;
    assert x + gap + y == x + rest;
    assert IsSpace(rest[0]) by {
      assert rest[0] == gap[0];
    }
    WordsAfterWord(x, rest);
    WordsOfGapWord(gap, y);
  }

  /** Two strings, the first holding two words apart by whitespace, merge into
      three words in order. */
  lemma MergeTwoStrings(x: string, gap: string, y: string, z: string)
    requires IsWord(x) && IsWord(y) && IsWord(z)
    requires gap != "" && TrimStart(gap) == ""
    ensures MergeWords([x + gap + y, z]) == [x, y, z]
  {
    var ss := [x + gap + y, z];
    assert MergeWords(ss[..1]) == [x, y] by {
      assert ss[..1][..0] == [];
      WordsOfGap(x, gap, y);
    }
    assert Words(z) == [z] by {
      WordsAfterWord(z, "");
      assert z + "" == z;
    }
    assert ss[..|ss| - 1] == ss[..1];
  }

  /** Two words joined by a space split on the space into the two words. */
  lemma SplitTwoWords(x: string, y: string)
    requires IsWord(x) && IsWord(y)
    ensures Split(x + " " + y, " ") == [x, y]
  {
    var s := x + " " + y;
    assert FirstAt(s, " ", 0) == Some(|x|) by {
      assert IsAt(s, " ", |x|) by {
        assert s[|x|..|x| + 1] == " ";
      }
      forall j: nat | j < |x|
        ensures !IsAt(s, " ", j)
      {
        assert s[j..j + 1][0] == s[j] == x[j];
      }
    }
    assert FirstAt(y, " ", 0) == None by {
      forall j: nat | j <= |y|
        ensures !IsAt(y, " ", j)
      {
        if j < |y| {
          assert y[j..j + 1][0] == y[j];
        }
      }
    }
    assert s[..|x|] == x;
    assert s[|x| + 1..] == y;
  }

  /** Two words joined by a space camel-case into the first lower-cased and the
      second capitalised. */
  lemma CamelTwoWords(x: string, y: string)
    requires IsWord(x) && IsWord(y)
    ensures CamelCase(x + " " + y, " ") == Lower(x) + Capitalize(y)
  {
    SplitTwoWords(x, y);
    assert [x, y][1..] == [y];
    assert CapitalizeAll([y]) == Capitalize(y) + CapitalizeAll([]);
    assert Capitalize(y) + "" == Capitalize(y);
  }

  /** Two words under the default settings build into the words with one space
      between them. */
  lemma BuildTwoWords(x: string, y: string)
    requires IsWord(x) && IsWord(y)
    ensures Build([x, y], Defaults) == x + " " + y
  {
    CoreOfWords([x, y]);
    assert Join([x, y], " ") == x + " " + y by {
      assert [x, y][1..] == [y];
    }
  }

  /** `toBeString(w).config({prefix: pre, suffix: post}).end()` is `w` between
      `pre` and `post`, as in "[Hello]". */
  method Bracketed(w: string, pre: string, post: string) returns (r: string)
    requires IsWord(w)
    ensures r == pre + w + post
  {
    var b := new ToBeString(w);
    b.Config(Options(None, None, Some(pre), Some(post)));
    r := b.End("");
    RenderWord(w, b.settings);
  }

  /** `add({a: true, b: false, c: true})` adds `a` then `c`, never `b`. */
  method ObjectCondition(a: string, b: string, c: string) returns (parts: seq<string>)
    requires a != "" && c != ""
    ensures parts == [a, c]
  {
    var t := new ToBeString("");
    t.Add(Mapping([(a, true), (b, false), (c, true)]));
    ThreeEntries(a, b, c);
    NonEmptyOfNonEmpty([a, c]);
    PushAllKeepingDuplicates([], [a, c]);
    parts := t.parts;
  }

  /** With duplicates ignored, adding `x` twice keeps a single `x`. */
  method DuplicateIgnored(x: string) returns (parts: seq<string>)
    requires x != ""
    ensures parts == [x]
  {
    var b := new ToBeString("");
    b.Config(Options(Some(true), None, None, None));
    b.Add(Flag(true, Single(x)));
    b.Add(Flag(true, Single(x)));
    parts := b.parts;
  }

  /** `merge("a  b", "c")` adds "a", "b" and "c", whatever the run of whitespace
      between "a" and "b". */
  method MergeStrings(x: string, gap: string, y: string, z: string) returns (parts: seq<string>)
    requires IsWord(x) && IsWord(y) && IsWord(z)
    requires gap != "" && TrimStart(gap) == ""
    ensures parts == [x, y, z]
  {
    var b := new ToBeString("");
    b.Merge([x + gap + y, z]);
    assert b.parts == [x, y, z] by {
      MergeTwoStrings(x, gap, y, z);
      NonEmptyOfNonEmpty([x, y, z]);
      PushAllKeepingDuplicates([], [x, y, z]);
    }
    parts := b.parts;
  }

  /** `add(true, ["Foo", "Bar"]).toCamelCase()` is "fooBar": the first word
      lower-cased, the second capitalised. */
  method CamelPair(x: string, y: string) returns (r: string)
    requires IsWord(x) && IsWord(y)
    ensures r == Lower(x) + Capitalize(y)
  {
    var b := new ToBeString("");
    b.Add(Flag(true, Many([x, y])));
    assert b.parts == [x, y] by {
      NonEmptyOfNonEmpty([x, y]);
      PushAllKeepingDuplicates([], [x, y]);
    }
    BuildTwoWords(x, y);
    CamelTwoWords(x, y);
    r := b.ToCamelCase();
  }

  /** `toBeString("hello world").toSentenceCase()` is "Hello world": words already
      apart by single spaces are sentence-cased as they stand. */
  method SentenceOf(ws: seq<string>) returns (r: string)
    requires forall w :: w in ws ==> IsWord(w)
    ensures r == SentenceCase(Join(ws, " "))
  {
    var b := new ToBeString(Join(ws, " "));
    if Join(ws, " ") == "" {
      CoreShape([], " ");
    } else {
      RenderSpaced(ws, b.settings);
    }
    r := b.ToSentenceCase();
  }

  /** An empty builder renders the empty string, in every letter case. */
  method EmptyBuilder() returns (built: string, camel: string, sentence: string)
    ensures built == "" && camel == "" && sentence == ""
  {
    var b := new ToBeString("");
    CoreShape([], " ");
    built := b.End("");
    camel := b.ToCamelCase();
    sentence := b.ToSentenceCase();
  }
}
