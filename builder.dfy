/**
 * The builder object: an ordered token list and a configuration, both updated
 * in place, and the operations that read them.
 */
module Builder {
  import opened Text
  import opened Whitespace
  import opened Tokens
  import opened Render

  class ToBeString {
    /** The tokens collected so far, in insertion order. */
    var parts: seq<string>
    /** The current configuration. */
    var settings: Settings

    /** The object invariant: no token is the empty string. */
    ghost predicate Valid()
      reads this
    {
      "" !in parts
    }

    /** A new builder has the default settings and `base` as its only token, or no
        token at all when `base` is empty. */
    constructor (base: string)
      ensures Valid()
      ensures settings == Defaults
      ensures parts == if base == "" then [] else [base]
    {
      var initial: seq<string> := [];
      if base != "" {
        initial := initial + [base];
      }
      parts := initial;
      settings := Defaults;
    }

    /** `config(options)`: the supplied options overwrite their settings; the
        tokens are not touched. */
    method Config(options: Options)
      requires Valid()
      modifies this
      ensures Valid()
      ensures parts == old(parts)
      ensures settings == Assign(old(settings), options)
    {
      settings := Assign(settings, options);
    }

    /** `_push(val)`: the push rule applied to the token list. */
    method Push(val: string)
      requires Valid()
      modifies this
      ensures Valid() && settings == old(settings)
      ensures parts == Pushed(old(parts), settings.ignoreDuplicate, val)
    {
      if val == "" {
        return;
      }
      if settings.ignoreDuplicate && val in parts {
        return;
      }
      parts := parts + [val];
    }

    /** `vals.forEach((v) => this._push(v))`: pushes the values one by one, in order. */
    method PushEach(vals: seq<string>)
      requires Valid()
      modifies this
      ensures Valid() && settings == old(settings)
      ensures parts == PushAll(old(parts), settings.ignoreDuplicate, vals)
    {
      var i := 0;
      while i < |vals|
        invariant 0 <= i <= |vals|
        invariant Valid() && settings == old(settings)
        invariant parts == PushAll(old(parts), settings.ignoreDuplicate, vals[..i])
      {
        assert vals[..i + 1][..i] == vals[..i];
        Push(vals[i]);
        i := i + 1;
      }
      assert vals[..|vals|] == vals;
    }

    /** `for (const [k, v] of Object.entries(condition)) if (v) this._push(k)`:
        pushes the keys with truthy values, in entry order. */
    method PushKeys(entries: seq<(string, bool)>)
      requires Valid()
      modifies this
      ensures Valid() && settings == old(settings)
      ensures parts == PushAll(old(parts), settings.ignoreDuplicate, TruthyKeys(entries))
    {
      ghost var start, ignore := parts, settings.ignoreDuplicate;
      ghost var keys: seq<string> := [];
      var i := 0;
      while i < |entries|
        invariant 0 <= i <= |entries|
        invariant Valid() && settings == old(settings) && ignore == settings.ignoreDuplicate
        invariant keys == TruthyKeys(entries[..i])
        invariant parts == PushAll(start, ignore, keys)
      {
        var (k, v) := entries[i];
        assert entries[..i + 1][..i] == entries[..i];
        if v {
          Push(k);
          assert PushAll(start, ignore, keys + [k]) == parts by {
            PushAllAppend(start, ignore, keys, [k]);
            assert [k][..0] == [];
          }
          keys := keys + [k];
        }
        i := i + 1;
      }
      assert entries[..|entries|] == entries;
    }

    /** `add(condition, value)`: pushes the selected values one by one, in order. */
    method Add(condition: Condition)
      requires Valid()
      modifies this
      ensures Valid() && settings == old(settings)
      ensures parts == PushAll(old(parts), settings.ignoreDuplicate, Selected(condition))
    {
      match condition
      case Flag(on, value) =>
        if on && Truthy(value) {
          if value.Many? {
            PushEach(value.items);
          } else {
            Push(value.text);
            assert [value.text][..0] == [];
          }
        }
      case Mapping(entries) =>
        PushKeys(entries);
      case Other =>
    }

    /** `merge(...strings)`: pushes the words of every string, string after string. */
    method Merge(strings: seq<string>)
      requires Valid()
      modifies this
      ensures Valid() && settings == old(settings)
      ensures parts == PushAll(old(parts), settings.ignoreDuplicate, MergeWords(strings))
    {
      ghost var start, ignore := parts, settings.ignoreDuplicate;
      ghost var merged: seq<string> := [];
      var i := 0;
      while i < |strings|
        invariant 0 <= i <= |strings|
        invariant Valid() && settings == old(settings) && ignore == settings.ignoreDuplicate
        invariant merged == MergeWords(strings[..i])
        invariant parts == PushAll(start, ignore, merged)
      {
        var words := Words(strings[i]);
        PushEach(words);
        PushAllAppend(start, ignore, merged, words);
        MergeWordsStep(strings, i);
        merged := merged + words;
        i := i + 1;
      }
      assert strings[..|strings|] == strings;
    }

    /** `end(value)`: pushes `value` when it is not empty, then returns the built
        string; with no value nothing changes. */
    method End(value: string) returns (r: string)
      requires Valid()
      modifies this
      ensures Valid() && settings == old(settings)
      ensures parts == Pushed(old(parts), settings.ignoreDuplicate, value)
      ensures value == "" ==> parts == old(parts)
      ensures r == Build(parts, settings)
    {
      if value != "" {
        Push(value);
      }
      r := Build(parts, settings);
    }

    /** `toLowerCase()`: the built string with every letter lower-cased. */
    function ToLowerCase(): (r: string)
      reads this
      ensures |r| == |Build(parts, settings)|
      ensures forall i :: 0 <= i < |r| ==> r[i] == LowerChar(Build(parts, settings)[i])
    {
      Lower(Build(parts, settings))
    }

    /** `toUpperCase()`: the built string with every letter upper-cased. */
    function ToUpperCase(): (r: string)
      reads this
      ensures |r| == |Build(parts, settings)|
      ensures forall i :: 0 <= i < |r| ==> r[i] == UpperChar(Build(parts, settings)[i])
    {
      Upper(Build(parts, settings))
    }

    /** `toCamelCase()`: up to letter case, the built string with the separators
        taken out; an empty build gives the empty string, and a build without the
        separator is just lower-cased. */
    function ToCamelCase(): (r: string)
      reads this
      ensures Lower(r) == Lower(Join(Split(Build(parts, settings), settings.separator), ""))
      ensures Build(parts, settings) == "" ==> r == ""
      ensures settings.separator != "" && !Occurs(Build(parts, settings), settings.separator) ==>
                r == Lower(Build(parts, settings))
    {
      var built := Build(parts, settings);
      CamelCaseSpec(built, settings.separator);
      CamelWithoutSeparator(built, settings.separator);
      CamelCase(built, settings.separator)
    }

    /** `toSentenceCase()`: as long as the built string, its first character
        upper-cased and the rest lower-cased; an empty build gives the empty string. */
    function ToSentenceCase(): (r: string)
      reads this
      ensures |r| == |Build(parts, settings)|
      ensures Build(parts, settings) != "" ==> r[0] == UpperChar(Build(parts, settings)[0])
      ensures forall i :: 1 <= i < |r| ==> r[i] == LowerChar(Build(parts, settings)[i])
    {
      SentenceCase(Build(parts, settings))
    }
  }

  /** Two `end()` calls in a row return the same string and change nothing. */
  method EndTwice(b: ToBeString) returns (first: string, second: string)
    requires b.Valid()
    modifies b
    ensures first == second
    ensures b.parts == old(b.parts) && b.settings == old(b.settings)
  {
    first := b.End("");
    second := b.End("");
  }
}
