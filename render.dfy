/**
 * The builder's configuration and everything it computes from its tokens
 * without changing them: the rendered string (`_build`) and the letter-case
 * variants of it.
 */
module Render {
  import opened Wrappers
  import opened Text
  import opened Whitespace

  /** The four recognised settings. */
  datatype Settings = Settings(ignoreDuplicate: bool, separator: string, prefix: string, suffix: string)

  /** The settings of a new builder: duplicates kept, joined by one space, no prefix or suffix. */
  const Defaults := Settings(false, " ", "", "")

  /** The argument of `config`: every setting may be supplied or left out. */
  datatype Options = Options(
    ignoreDuplicate: Option<bool>,
    separator: Option<string>,
    prefix: Option<string>,
    suffix: Option<string>)

  /** `config()` with no argument, or `config({})`. */
  const NoOptions := Options(None, None, None, None)

  function Pick<T>(given: Option<T>, current: T): T {
    match given
    case Some(v) => v
    case None => current
  }

  /** `Object.assign(settings, options)`: each supplied option replaces its setting. */
  function Assign(s: Settings, o: Options): Settings {
    Settings(
      Pick(o.ignoreDuplicate, s.ignoreDuplicate),
      Pick(o.separator, s.separator),
      Pick(o.prefix, s.prefix),
      Pick(o.suffix, s.suffix))
  }

  /** A supplied option overwrites its setting and a setting without an option is
      kept; so no options change nothing, and applying the same options twice is
      the same as applying them once. */
  lemma AssignOverwritesSupplied(s: Settings, o: Options)
    ensures var r := Assign(s, o);
      && (if o.ignoreDuplicate.Some? then r.ignoreDuplicate == o.ignoreDuplicate.value else r.ignoreDuplicate == s.ignoreDuplicate)
      && (if o.separator.Some? then r.separator == o.separator.value else r.separator == s.separator)
      && (if o.prefix.Some? then r.prefix == o.prefix.value else r.prefix == s.prefix)
      && (if o.suffix.Some? then r.suffix == o.suffix.value else r.suffix == s.suffix)
    ensures Assign(s, NoOptions) == s
    ensures Assign(Assign(s, o), o) == Assign(s, o)
  {
  }

  /** The part of `_build` between prefix and suffix: the tokens joined by the
      separator, each whitespace run collapsed to one space, then trimmed. */
  function Core(parts: seq<string>, sep: string): string {
    Trim(Collapse(Join(parts, sep)))
  }

  /** `_build`: the core wrapped in the prefix and the suffix, which are kept as they are. */
  function Build(parts: seq<string>, s: Settings): (r: string)
    ensures |r| == |s.prefix| + |Core(parts, s.separator)| + |s.suffix|
    ensures r[..|s.prefix|] == s.prefix
    ensures r[|r| - |s.suffix|..] == s.suffix
    ensures r[|s.prefix|..|r| - |s.suffix|] == Core(parts, s.separator)
  {
    var c := Core(parts, s.separator);
    assert (s.prefix + c + s.suffix)[|s.prefix|..|s.prefix| + |c|] == c;
    s.prefix + c + s.suffix
  }

  /** The core is the words of the joined tokens separated by single spaces. */
  lemma CoreIsWords(parts: seq<string>, sep: string)
    ensures Core(parts, sep) == Join(Words(Join(parts, sep)), " ")
  {
    CollapseTrimIsWords(Join(parts, sep));
  }

  /** The core has no whitespace at either end, no two whitespace characters side
      by side and no whitespace but the plain space, and it is empty when there
      are no tokens. */
  lemma {:induction false} CoreShape(parts: seq<string>, sep: string)
    ensures NoEdgeSpace(Core(parts, sep))
    ensures NoSpaceRun(Core(parts, sep))
    ensures OnlyBlanks(Core(parts, sep))
    ensures parts == [] ==> Core(parts, sep) == ""
  {
    var ws := Words(Join(parts, sep));
    CoreIsWords(parts, sep);
    JoinWordsShape(ws);
  }

  /** Rendering keeps the words of the joined tokens, and only changes whitespace. */
  lemma {:induction false} CoreKeepsWords(parts: seq<string>, sep: string)
    ensures Words(Core(parts, sep)) == Words(Join(parts, sep))
  {
    CoreIsWords(parts, sep);
    WordsOfJoin(Words(Join(parts, sep)));
  }

  /** Tokens that are words, joined by a single space, render as exactly that. */
  lemma {:induction false} CoreOfWords(ws: seq<string>)
    requires forall w :: w in ws ==> IsWord(w)
    ensures Core(ws, " ") == Join(ws, " ")
  {
    CollapseTrimIsWords(Join(ws, " "));
    WordsOfJoin(ws);
  }

  /** `w.charAt(0).toUpperCase() + w.slice(1).toLowerCase()`. */
  function Capitalize(w: string): string {
    if w == "" then "" else [UpperChar(w[0])] + Lower(w[1..])
  }

  /** The capitalised words, concatenated. */
  function CapitalizeAll(words: seq<string>): string {
    if words == [] then "" else Capitalize(words[0]) + CapitalizeAll(words[1..])
  }

  /** `toCamelCase` on the built string: split on the separator, the first piece
      lower-cased, every later piece capitalised, all concatenated. */
  function CamelCase(built: string, sep: string): string {
    var words := Split(built, sep);
    if words == [] then "" else Lower(words[0]) + CapitalizeAll(words[1..])
  }

  lemma LowerCapitalize(w: string)
    ensures Lower(Capitalize(w)) == Lower(w)
  {
    if w != "" {
      LowerAppend([UpperChar(w[0])], Lower(w[1..]));
      LowerAppend([w[0]], w[1..]);
      LowerIsLower(w[1..]);
      assert w == [w[0]] + w[1..];
    }
  }

  lemma {:induction false} LowerCapitalizeAll(words: seq<string>)
    ensures Lower(CapitalizeAll(words)) == Lower(Join(words, ""))
  {
    if words != [] {
      var rest := words[1..];
      LowerCapitalizeAll(rest);
      LowerCapitalize(words[0]);
      LowerAppend(Capitalize(words[0]), CapitalizeAll(rest));
      if rest == [] {
        assert Join(words, "") == words[0];
      } else {
        assert words == [words[0]] + rest;
        JoinCons(words[0], rest, "");
        LowerAppend(words[0], Join(rest, ""));
      }
    }
  }

  /** Up to letter case, a lower-cased first word followed by capitalised words
      is the words concatenated. */
  lemma {:induction false} LowerCamelWords(words: seq<string>)
    requires words != []
    ensures Lower(Lower(words[0]) + CapitalizeAll(words[1..])) == Lower(Join(words, ""))
  {
    var w, rest := words[0], words[1..];
    assert Join(words, "") == w + Join(rest, "") by {
      if rest == [] {
        assert Join(words, "") == w;
      } else {
        assert words == [w] + rest;
        JoinCons(w, rest, "");
      }
    }
    calc {
      Lower(Lower(w) + CapitalizeAll(rest));
      { LowerAppend(Lower(w), CapitalizeAll(rest)); }
      Lower(Lower(w)) + Lower(CapitalizeAll(rest));
      { LowerIsLower(w); LowerCapitalizeAll(rest); }
      Lower(w) + Lower(Join(rest, ""));
      { LowerAppend(w, Join(rest, "")); }
      Lower(w + Join(rest, ""));
    }
  }

  /** Up to letter case, camel case is the built string with every separator
      taken out: it is the concatenation of the pieces that join back, with the
      separator, to the built string. An empty build stays empty. */
  lemma {:induction false} CamelCaseSpec(built: string, sep: string)
    ensures Lower(CamelCase(built, sep)) == Lower(Join(Split(built, sep), ""))
    ensures Join(Split(built, sep), sep) == built
    ensures built == "" ==> CamelCase(built, sep) == ""
  {
    SplitJoin(built, sep);
    var words := Split(built, sep);
    if words != [] {
      LowerCamelWords(words);
    }
  }

  /** A built string without the separator is simply lower-cased. */
  lemma CamelWithoutSeparator(built: string, sep: string)
    ensures sep != "" && !Occurs(built, sep) ==> CamelCase(built, sep) == Lower(built)
  {
    if sep != "" && !Occurs(built, sep) {
      SplitWithout(built, sep);
    }
  }

  /** `toSentenceCase` on the built string: lower-cased, then its first character
      upper-cased. */
  function SentenceCase(built: string): (r: string)
    ensures |r| == |built|
    ensures built != "" ==> r[0] == UpperChar(built[0])
    ensures forall i :: 1 <= i < |r| ==> r[i] == LowerChar(built[i])
  {
    var l := Lower(built);
    if l == "" then "" else [UpperChar(l[0])] + l[1..]
  }
}
