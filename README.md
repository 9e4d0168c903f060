# ToBeString in Dafny

A model of `ToBeString` (tobe-string.js), a fluent builder for class-like
strings. A builder holds an ordered list of string tokens (`parts`) and a
configuration (`settings`: `ignoreDuplicate`, `separator`, `prefix`,
`suffix`). `add`, `merge` and `end` bring tokens in through the push rule
`_push`; the constructor appends a non-empty `base` directly, which has the
same effect on the empty list under the default settings. `_build` renders the
tokens:

1. join them with the separator;
2. collapse each run of whitespace to one space;
3. trim;
4. wrap the result in the prefix and the suffix.

The case conversions `toLowerCase`, `toUpperCase`, `toCamelCase` and
`toSentenceCase` work on the rendered string.

Layout:

- `wrappers.dfy`: `Option`.
- `text.dfy`: ASCII letter case, `Array.prototype.join`, and
  `String.prototype.indexOf` and `split` with a string separator.
- `whitespace.dfy`: the whitespace set, trimming, `replace(/\s+/g, " ")`
  (`Collapse`) and `split(/\s+/).filter(Boolean)` (`Words`). Its main result
  is `CollapseTrimIsWords`: collapsing and trimming a string gives its words
  joined by single spaces.
- `tokens.dfy`: the push rule (`Pushed`, and `PushAll` for a sequence of
  pushes), the conditions `add` accepts, and the words `merge` pushes.
- `render.dfy`: the settings, `Object.assign` of options, `_build`, camel
  case and sentence case.
- `builder.dfy`: the class `ToBeString`. Its fields `parts` and `settings`
  are updated in place by methods. Each method's postcondition ties the new
  state to the specification functions above. `add`'s loops and `merge`'s
  loops carry invariants in terms of `PushAll`.
- `scenarios.dfy`: the documented uses, stated for any words. Examples are
  "[Hello]", `add({a: true, b: false, c: true})`, `merge("a  b", "c")` and
  "fooBar".

Whitespace is space, tab, line feed, vertical tab, form feed and carriage
return. Letter case is mapped over `A`–`Z` and `a`–`z` only.

## Model

| member | source | states |
|---|---|---|
| Builder.ToBeString.constructor | tobe-string.js:8-20 | the settings are `Render.Defaults` (duplicates kept, separator " ", empty prefix and suffix, lines 12-17); `base` is the only token when it is non-empty, otherwise there are no tokens; no token is empty |
| Builder.ToBeString.Config | tobe-string.js:27-30 | tokens untouched; the settings become the old settings with the supplied options written over them |
| Render.AssignOverwritesSupplied | tobe-string.js:27-30 | every supplied option replaces its setting, every other setting keeps its value; no options change nothing; applying the same options twice equals applying them once |
| Builder.ToBeString.Push | tobe-string.js:113-117 | the token list becomes the push rule applied to the old list; the settings are unchanged and no token is empty |
| Tokens.PushEffect | tobe-string.js:113-117 | a push leaves the list unchanged exactly when the value is empty or is a duplicate with `ignoreDuplicate` on; otherwise it appends the value once at the end and keeps every earlier token |
| Tokens.PushKeeps | tobe-string.js:113-116 | a push never adds the empty token; with `ignoreDuplicate` on, a duplicate-free list stays duplicate-free |
| Builder.ToBeString.PushEach | tobe-string.js:41 | pushing an array's elements one by one equals the push rule folded over them in order |
| Tokens.PushAllAppend | tobe-string.js:41 | pushing `xs ++ ys` equals pushing `xs` and then `ys` |
| Tokens.PushAllGrows | tobe-string.js:41 | a run of pushes keeps the old list as a prefix; it appends only non-empty values taken from the input; it keeps "no empty token", and keeps "no duplicates" when `ignoreDuplicate` is on |
| Tokens.PushAllCovers | tobe-string.js:41 | after a run of pushes, every old token and every non-empty pushed value is in the list |
| Tokens.PushAllKeepingDuplicates | tobe-string.js:41 | with `ignoreDuplicate` off, a run of pushes appends exactly the non-empty values, in order |
| Tokens.NonEmptyOfNonEmpty | tobe-string.js:114 | a sequence without empty strings loses nothing to the emptiness filter |
| Builder.ToBeString.Add | tobe-string.js:38-51 | the new token list is the old one with the condition's selected values pushed in order; the settings are unchanged |
| Builder.ToBeString.PushKeys | tobe-string.js:45-48 | the new token list is the old one with the keys whose values are truthy pushed in entry order; the settings are unchanged |
| Tokens.TruthyKeysExact | tobe-string.js:45-48 | a key is selected from an object condition exactly when some entry maps it to a truthy value |
| Tokens.TruthyKeysAppend | tobe-string.js:46-48 | the keys of consecutive entries are selected in entry order |
| Tokens.AddWithoutEffect | tobe-string.js:39-49 | a false boolean condition, a falsy value, or a condition that is neither boolean nor object leaves the tokens unchanged |
| Builder.ToBeString.Merge | tobe-string.js:58-66 | the new token list is the old one with every whitespace-separated word of every string pushed, string after string and left to right |
| Tokens.MergeWordsStep | tobe-string.js:59-64 | unfolds `MergeWords` at a prefix of the arguments: the words merged from one more string are the earlier words followed by that string's words |
| Tokens.MergePushStep | tobe-string.js:59-64 | pushing the words of one more string continues the pushes of the earlier strings |
| Tokens.MergeWordsAreWords | tobe-string.js:60-63 | every token `merge` pushes is non-empty and holds no whitespace |
| Whitespace.Words | tobe-string.js:61-62 | every piece of `split(/\s+/).filter(Boolean)` is non-empty and holds no whitespace |
| Whitespace.WordsTrimStart | tobe-string.js:61-62 | leading whitespace does not change the words of a string |
| Whitespace.WordsAfterWord | tobe-string.js:61-62 | a word followed by whitespace or by nothing is the first word of the string |
| Whitespace.WordsAfterSpace | tobe-string.js:61-62 | one leading space adds no word |
| Whitespace.WordsOfJoin | tobe-string.js:61-62 | words joined by single spaces split back into the same words |
| Builder.ToBeString.End | tobe-string.js:73-76 | pushes a non-empty value by the push rule and changes nothing otherwise; returns the rendering of the new state |
| Builder.EndTwice | tobe-string.js:73-76 | two `end()` calls in a row return the same string and leave tokens and settings unchanged |
| Render.Build | tobe-string.js:120-122 | the rendering is the prefix, then the normalised core, then the suffix, with lengths adding up |
| Render.CoreIsWords | tobe-string.js:121 | the core is the words of the joined tokens, joined by single spaces |
| Render.CoreShape | tobe-string.js:121 | the core has no whitespace at either end, no two adjacent whitespace characters, and no whitespace other than a space; it is empty when there are no tokens |
| Render.CoreKeepsWords | tobe-string.js:121 | normalising whitespace keeps the words of the joined tokens |
| Render.CoreOfWords | tobe-string.js:121 | tokens that are already words, joined by a space, render unchanged |
| Whitespace.CollapseTrimIsWords | tobe-string.js:121 | `replace(/\s+/g, " ").trim()` equals the words of the string joined by single spaces |
| Whitespace.BlankWords | tobe-string.js:121 | the base case of `CollapseTrimIsWords`: for an all-whitespace string, the normal form equals its words joined by single spaces |
| Whitespace.LeadingSpaceWords | tobe-string.js:121 | the leading-whitespace step of `CollapseTrimIsWords`: if the equation holds once the leading whitespace is dropped, it holds for the whole string |
| Whitespace.WordFirstWords | tobe-string.js:121 | for a string that starts with a word, the normal form is the words joined by single spaces, given that this holds for the text after the word |
| Whitespace.WordFirstNormal | tobe-string.js:121 | the same step, stated for a word and the text that follows it |
| Whitespace.WordLenAfterWord | tobe-string.js:61-62 | the leading run of a word followed by whitespace or by nothing is exactly that word |
| Whitespace.TrimStartSolidHead | tobe-string.js:121 | a string that does not start with whitespace loses nothing at the start |
| Whitespace.TrimEndSpace | tobe-string.js:121 | one trailing space is dropped by trimming the end |
| Whitespace.TrimEndWord | tobe-string.js:121 | a word loses nothing at the end |
| Whitespace.JoinWordsShape | tobe-string.js:121 | words joined by single spaces have no edge whitespace, no whitespace run and only spaces, and are non-empty when there is a word |
| Whitespace.Collapse | tobe-string.js:121 | collapsing keeps a non-empty string non-empty; it starts with a space exactly when the original starts with whitespace, and otherwise with the same character |
| Whitespace.CollapseSolid | tobe-string.js:121 | a whitespace-free prefix passes through the collapse unchanged |
| Whitespace.TrimStart | tobe-string.js:121 | the result is a suffix of the input; it does not start with whitespace; everything dropped is whitespace |
| Whitespace.TrimEnd | tobe-string.js:121 | the result is a prefix of the input; it does not end with whitespace; everything dropped is whitespace |
| Whitespace.TrimShape | tobe-string.js:121 | `trim()` leaves no whitespace at either end and drops only whitespace |
| Whitespace.TrimEndAppend | tobe-string.js:121 | trimming the end of `a + b` only touches `b` when `b` is not blank |
| Whitespace.TrimWord | tobe-string.js:121 | trimming a word leaves it unchanged |
| Whitespace.TrimWordSpace | tobe-string.js:121 | a word with one trailing space trims to the word |
| Whitespace.BlankNormal | tobe-string.js:121 | an all-whitespace string normalises to the empty string |
| Whitespace.LeadingSpaceNormal | tobe-string.js:121 | leading whitespace does not change the normalised string |
| Whitespace.WordThenBlank | tobe-string.js:121 | a word followed by whitespace only normalises to the word |
| Whitespace.WordThenMore | tobe-string.js:121 | a word followed by whitespace and more text normalises to the word, one space, and the normalised rest |
| Whitespace.WordLen | tobe-string.js:121 | the length of the leading word: no whitespace before it, and whitespace right after it |
| Builder.ToBeString.ToLowerCase | tobe-string.js:82-84 | same length as the rendering; every character is lower-cased |
| Builder.ToBeString.ToUpperCase | tobe-string.js:90-92 | same length as the rendering; every character is upper-cased |
| Text.Lower | tobe-string.js:83 | same length; each character is mapped to lower case |
| Text.Upper | tobe-string.js:91 | same length; each character is mapped to upper case |
| Text.LowerIsLower | tobe-string.js:83 | a lower-cased string has no upper-case letter, and lower-casing it again changes nothing |
| Text.UpperIsUpper | tobe-string.js:91 | an upper-cased string has no lower-case letter, and upper-casing it again changes nothing |
| Text.LowerOfUpper | tobe-string.js:83 | lower-casing forgets an earlier upper-casing |
| Text.LowerAppend | tobe-string.js:83 | lower-casing distributes over concatenation |
| Builder.ToBeString.ToCamelCase | tobe-string.js:98-101 | up to letter case, the result is the rendering with every separator taken out; an empty rendering gives ""; a rendering without the separator is lower-cased |
| Render.CamelCaseSpec | tobe-string.js:99-100 | camel case equals, up to letter case, the split pieces glued together; the pieces rejoin into the input; empty input gives "" |
| Render.CamelWithoutSeparator | tobe-string.js:99-100 | when the separator does not occur, camel case is the input lower-cased |
| Render.LowerCapitalize | tobe-string.js:100 | capitalising a piece changes only the letter case |
| Render.LowerCapitalizeAll | tobe-string.js:100 | capitalising and gluing the pieces changes only the letter case of their concatenation |
| Render.LowerCamelWords | tobe-string.js:100 | the first piece lower-cased plus the rest capitalised equals, up to letter case, all pieces glued |
| Builder.ToBeString.ToSentenceCase | tobe-string.js:107-110 | same length as the rendering; the first character is upper-cased and the rest lower-cased; an empty rendering gives "" |
| Render.SentenceCase | tobe-string.js:108-109 | same length; first character upper-cased, every later one lower-cased |
| Text.IsSpace | tobe-string.js:61 | the whitespace class `\s` of the regular expressions at lines 61 and 121: space, tab, line feed, vertical tab, form feed, carriage return |
| Text.Join | tobe-string.js:121 | `Array.prototype.join`: the parts in order with the separator between neighbours; no parts give "" and one part gives itself (also the `join("")` at line 100) |
| Whitespace.Trim | tobe-string.js:121 | `String.prototype.trim`: leading whitespace dropped, then trailing whitespace dropped |
| Tokens.Pushed | tobe-string.js:113-117 | the token list after `_push(val)`: unchanged for an empty value or for a present value while duplicates are ignored, otherwise the value appended |
| Tokens.PushAll | tobe-string.js:41 | the token list after pushing the values one by one, first to last, as the loops at lines 41, 46-48 and 59-63 do |
| Tokens.Truthy | tobe-string.js:39 | the `&& value` test: an absent value and the empty string are falsy, any array is truthy |
| Tokens.TruthyKeys | tobe-string.js:45-48 | the keys of an object condition whose values are truthy, in entry order |
| Tokens.Selected | tobe-string.js:38-49 | the values `add` hands to `_push`: the string or the array's elements for a true flag with a truthy value, the truthy keys for an object, nothing otherwise |
| Tokens.MergeWords | tobe-string.js:59-64 | the words `merge` hands to `_push`: the words of each argument string, string after string |
| Render.Assign | tobe-string.js:28 | `Object.assign(settings, options)`: each supplied option replaces its setting |
| Render.Core | tobe-string.js:121 | the part of `_build` between prefix and suffix: the tokens joined by the separator, each whitespace run collapsed to one space, then trimmed |
| Render.Capitalize | tobe-string.js:100 | `w.charAt(0).toUpperCase() + w.slice(1).toLowerCase()` |
| Render.CapitalizeAll | tobe-string.js:100 | the later pieces, each capitalised, concatenated |
| Render.CamelCase | tobe-string.js:99-100 | split on the separator, the first piece lower-cased, the others capitalised, all concatenated |
| Text.JoinCons | tobe-string.js:121 | joining a head and a non-empty tail puts one separator between them |
| Text.FirstAt | tobe-string.js:99 | `indexOf`: the index found is an occurrence at or after the start, and no occurrence comes before it |
| Text.Chars | tobe-string.js:99 | `split("")` gives one single-character piece per character |
| Text.Split | tobe-string.js:99 | splitting on a non-empty separator gives at least one piece |
| Text.JoinChars | tobe-string.js:99 | the characters glued back give the string |
| Text.SplitJoin | tobe-string.js:99 | joining the pieces with the separator gives back the string |
| Text.BeforeFirst | tobe-string.js:99 | the text before the first occurrence holds no occurrence |
| Text.SplitPiecesFree | tobe-string.js:99 | no piece contains the separator |
| Text.SplitWithout | tobe-string.js:99 | a string without the separator splits into itself alone |
| Scenarios.RenderWord | tobe-string.js:120-122 | a single word renders as itself between prefix and suffix |
| Scenarios.RenderSpaced | tobe-string.js:120-122 | one token made of words apart by single spaces renders unchanged |
| Scenarios.ThreeEntries | tobe-string.js:46-48 | `{a: true, b: false, c: true}` selects `a` then `c` |
| Scenarios.TrimStartAppend | tobe-string.js:121 | whitespace followed by a word trims to the word |
| Scenarios.WordsOfGapWord | tobe-string.js:61-62 | whitespace followed by a word holds exactly that word |
| Scenarios.WordsOfGap | tobe-string.js:61-62 | two words apart by any run of whitespace are the string's words |
| Scenarios.MergeTwoStrings | tobe-string.js:58-64 | `merge("a  b", "c")` yields the words `a`, `b`, `c` in order |
| Scenarios.SplitTwoWords | tobe-string.js:99 | two words joined by a space split on the space into the two words |
| Scenarios.CamelTwoWords | tobe-string.js:98-101 | two words camel-case into the first lower-cased and the second capitalised |
| Scenarios.BuildTwoWords | tobe-string.js:120-122 | two words under the default settings render with one space between them |
| Scenarios.Bracketed | tobe-string.js:27-30 | a fresh builder on a word, configured with a prefix and a suffix, ends as the word wrapped in them |
| Scenarios.ObjectCondition | tobe-string.js:45-48 | an object condition adds its truthy keys in order and skips the falsy one |
| Scenarios.DuplicateIgnored | tobe-string.js:115 | with `ignoreDuplicate` on, adding a value twice keeps one copy |
| Scenarios.MergeStrings | tobe-string.js:58-66 | `merge("a  b", "c")` on a fresh builder leaves the tokens `a`, `b`, `c` |
| Scenarios.CamelPair | tobe-string.js:98-101 | `add(true, ["Foo", "Bar"]).toCamelCase()` gives the first word lower-cased followed by the second capitalised |
| Scenarios.SentenceOf | tobe-string.js:107-110 | a builder on words already apart by single spaces sentence-cases them as they stand |
| Scenarios.EmptyBuilder | tobe-string.js:8-20 | an empty builder renders "", and gives "" in camel and sentence case |

## Left out

- Unicode and locale letter case. `toLowerCase` and `toUpperCase` map only
  the ASCII letters; every other character is left unchanged.
- The full JavaScript `\s` class. Whitespace is the six ASCII characters
  listed above; Unicode spaces such as U+00A0 and U+2028 are not modelled.
- JavaScript truthiness of arbitrary values and `typeof` dispatch. A
  condition is a boolean with an absent, string or array value, an ordered
  list of (key, truthy) pairs, or anything else. Array elements are strings,
  and a string is falsy exactly when it is empty.
- The `Object.entries` ordering rules, such as integer-like keys coming
  first. An object condition is given as its entries already in order.
- `config` with a property set to `undefined`. `Object.assign` would copy
  the `undefined` value; an option here is either supplied with a value or
  not supplied.
- Method chaining by returning `this`. The methods mutate the builder and
  return nothing (except `end`, which returns the string).
- The `toBeString` factory (tobe-string.js:130-132). It only calls the
  constructor.
- Builder.ToBeString.ToCamelCase: the result is stated up to letter case,
  plus exactly for an empty rendering and for one without the separator. It
  is not stated character by character for the general case; the two-word
  case is stated exactly by `Scenarios.CamelPair`.
