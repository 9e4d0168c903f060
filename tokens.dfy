/**
 * The builder's push rule and the lists of candidate tokens that `add` and
 * `merge` hand to it, one after the other.
 */
module Tokens {
  import opened Whitespace

  /** No entry occurs twice. */
  predicate Distinct(parts: seq<string>) {
    forall i, j :: 0 <= i < j < |parts| ==> parts[i] != parts[j]
  }

  /** The token list after `_push(val)`: the empty string is always refused, a
      value already present is refused while duplicates are ignored, and any
      other value is appended. */
  function Pushed(parts: seq<string>, ignoreDuplicate: bool, val: string): seq<string> {
    if val == "" || (ignoreDuplicate && val in parts) then parts else parts + [val]
  }

  /** A push either changes nothing, exactly when the value is empty or is a
      duplicate being ignored, or appends the value once and keeps every
      earlier token where it was. */
  lemma PushEffect(parts: seq<string>, ignoreDuplicate: bool, val: string)
    ensures Pushed(parts, ignoreDuplicate, val) == parts <==> val == "" || (ignoreDuplicate && val in parts)
    ensures Pushed(parts, ignoreDuplicate, val) != parts ==>
      var r := Pushed(parts, ignoreDuplicate, val);
      |r| == |parts| + 1 && r[..|parts|] == parts && r[|parts|] == val
  {
    if !(val == "" || (ignoreDuplicate && val in parts)) {
      assert |parts + [val]| != |parts|;
    }
  }

  /** No push ever adds the empty string, and while duplicates are ignored no push
      adds a token that is already there. */
  lemma PushKeeps(parts: seq<string>, ignoreDuplicate: bool, val: string)
    ensures "" !in parts ==> "" !in Pushed(parts, ignoreDuplicate, val)
    ensures ignoreDuplicate && Distinct(parts) ==> Distinct(Pushed(parts, ignoreDuplicate, val))
  {
  }

  /** The token list after pushing `vals` one by one, first to last. */
  function PushAll(parts: seq<string>, ignoreDuplicate: bool, vals: seq<string>): seq<string>
    decreases |vals|
  {
    if vals == [] then parts
    else Pushed(PushAll(parts, ignoreDuplicate, vals[..|vals| - 1]), ignoreDuplicate, vals[|vals| - 1])
  }

  /** Pushing two lists is pushing the first, then the second. */
  lemma {:induction false} PushAllAppend(parts: seq<string>, ignoreDuplicate: bool, xs: seq<string>, ys: seq<string>)
    ensures PushAll(parts, ignoreDuplicate, xs + ys) == PushAll(PushAll(parts, ignoreDuplicate, xs), ignoreDuplicate, ys)
    decreases |ys|
  {
    if ys == [] {
      assert xs + ys == xs;
    } else {
      var ys' := ys[..|ys| - 1];
      assert (xs + ys)[..|xs + ys| - 1] == xs + ys';
      assert (xs + ys)[|xs + ys| - 1] == ys[|ys| - 1];
      PushAllAppend(parts, ignoreDuplicate, xs, ys');
    }
  }

  /** Pushing a list only appends: the old tokens stay in front, each new token is
      a non-empty member of the list, no empty token appears, and while duplicates
      are ignored a list without duplicates stays without them. */
  lemma {:induction false} PushAllGrows(parts: seq<string>, ignoreDuplicate: bool, vals: seq<string>)
    ensures var r := PushAll(parts, ignoreDuplicate, vals);
      && |parts| <= |r| && r[..|parts|] == parts
      && (forall i :: |parts| <= i < |r| ==> r[i] in vals && r[i] != "")
      && ("" !in parts ==> "" !in r)
      && (ignoreDuplicate && Distinct(parts) ==> Distinct(r))
    decreases |vals|
  {
    if vals != [] {
      var init := vals[..|vals| - 1];
      PushAllGrows(parts, ignoreDuplicate, init);
      var q := PushAll(parts, ignoreDuplicate, init);
      PushKeeps(q, ignoreDuplicate, vals[|vals| - 1]);
      assert forall x :: x in init ==> x in vals;
      var r := PushAll(parts, ignoreDuplicate, vals);
      assert r == q || r == q + [vals[|vals| - 1]];
      assert r[..|q|] == q;
      assert r[..|parts|] == q[..|parts|];
    }
  }

  /** Every non-empty member of the list is among the tokens afterwards. */
  lemma {:induction false} PushAllCovers(parts: seq<string>, ignoreDuplicate: bool, vals: seq<string>)
    ensures forall x :: x in parts ==> x in PushAll(parts, ignoreDuplicate, vals)
    ensures forall x :: x in vals && x != "" ==> x in PushAll(parts, ignoreDuplicate, vals)
    decreases |vals|
  {
    if vals != [] {
      var init := vals[..|vals| - 1];
      PushAllCovers(parts, ignoreDuplicate, init);
      assert vals == init + [vals[|vals| - 1]];
    }
  }

  /** The non-empty members of a list, in order. */
  function NonEmpty(vals: seq<string>): seq<string>
    decreases |vals|
  {
    if vals == [] then []
    else NonEmpty(vals[..|vals| - 1]) + (if vals[|vals| - 1] == "" then [] else [vals[|vals| - 1]])
  }

  /** While duplicates are allowed, pushing a list appends exactly its non-empty
      members, in order. */
  lemma {:induction false} PushAllKeepingDuplicates(parts: seq<string>, vals: seq<string>)
    ensures PushAll(parts, false, vals) == parts + NonEmpty(vals)
    decreases |vals|
  {
    if vals != [] {
      PushAllKeepingDuplicates(parts, vals[..|vals| - 1]);
    }
  }

  /** A list without empty members is its own non-empty part. */
  lemma {:induction false} NonEmptyOfNonEmpty(vals: seq<string>)
    requires "" !in vals
    ensures NonEmpty(vals) == vals
    decreases |vals|
  {
    if vals != [] {
      var init := vals[..|vals| - 1];
      assert forall x :: x in init ==> x in vals;
      NonEmptyOfNonEmpty(init);
      assert vals == init + [vals[|vals| - 1]];
    }
  }

  /** The `value` argument of `add`: left out, one string, or an array of strings. */
  datatype Value = Absent | Single(text: string) | Many(items: seq<string>)

  /** The `condition` argument of `add`: a boolean with its value, an object read
      as its entries in order (a key and whether its value is truthy), or anything
      else (null, a number, a string, ...). */
  datatype Condition = Flag(on: bool, value: Value) | Mapping(entries: seq<(string, bool)>) | Other

  /** JavaScript truthiness of the `value` argument: an array is always truthy. */
  predicate Truthy(v: Value) {
    match v
    case Absent => false
    case Single(text) => text != ""
    case Many(_) => true
  }

  /** The keys whose values are truthy, in entry order. */
  function TruthyKeys(entries: seq<(string, bool)>): seq<string>
    decreases |entries|
  {
    if entries == [] then []
    else
      var last := entries[|entries| - 1];
      TruthyKeys(entries[..|entries| - 1]) + (if last.1 then [last.0] else [])
  }

  /** The values `add(condition, value)` hands to `_push`, in order. */
  function Selected(c: Condition): seq<string> {
    match c
    case Flag(on, value) =>
      if on && Truthy(value) then
        match value
        case Single(text) => [text]
        case Many(items) => items
        case Absent => []
      else []
    case Mapping(entries) => TruthyKeys(entries)
    case Other => []
  }

  /** A key is selected exactly when some entry gives it a truthy value. */
  lemma {:induction false} TruthyKeysExact(entries: seq<(string, bool)>, k: string)
    ensures k in TruthyKeys(entries) <==> exists i :: 0 <= i < |entries| && entries[i] == (k, true)
    decreases |entries|
  {
    if entries != [] {
      var init := entries[..|entries| - 1];
      TruthyKeysExact(init, k);
      assert forall i :: 0 <= i < |init| ==> entries[i] == init[i];
    }
  }

  /** Selection follows the entry order: the keys of later entries come after. */
  lemma {:induction false} TruthyKeysAppend(a: seq<(string, bool)>, b: seq<(string, bool)>)
    ensures TruthyKeys(a + b) == TruthyKeys(a) + TruthyKeys(b)
    decreases |b|
  {
    if b == [] {
      assert a + b == a;
    } else {
      var b' := b[..|b| - 1];
      assert (a + b)[..|a + b| - 1] == a + b';
      TruthyKeysAppend(a, b');
    }
  }

  /** A false flag, a flag without a truthy value, and a condition of any other
      shape select nothing, so `add` leaves the tokens alone. */
  lemma AddWithoutEffect(parts: seq<string>, ignoreDuplicate: bool, c: Condition)
    requires c.Other? || (c.Flag? && !(c.on && Truthy(c.value)))
    ensures PushAll(parts, ignoreDuplicate, Selected(c)) == parts
  {
  }

  /** The words `merge(...strings)` hands to `_push`: the words of each string,
      string after string. */
  function MergeWords(strings: seq<string>): seq<string>
    decreases |strings|
  {
    if strings == [] then []
    else MergeWords(strings[..|strings| - 1]) + Words(strings[|strings| - 1])
  }

  /** Unfolds `MergeWords` at a prefix of the arguments: one more argument string
      adds its words after those of the earlier ones. */
  lemma MergeWordsStep(strings: seq<string>, i: nat)
    requires i < |strings|
    ensures MergeWords(strings[..i + 1]) == MergeWords(strings[..i]) + Words(strings[i])
  {
    assert strings[..i + 1][..i] == strings[..i];
  }

  /** Pushing the words of one more argument string continues from the tokens the
      earlier strings left. */
  lemma MergePushStep(parts: seq<string>, ignoreDuplicate: bool, strings: seq<string>, i: nat)
    requires i < |strings|
    ensures PushAll(parts, ignoreDuplicate, MergeWords(strings[..i + 1]))
         == PushAll(PushAll(parts, ignoreDuplicate, MergeWords(strings[..i])), ignoreDuplicate, Words(strings[i]))
  {
    MergeWordsStep(strings, i);
    PushAllAppend(parts, ignoreDuplicate, MergeWords(strings[..i]), Words(strings[i]));
  }

  /** Every token `merge` hands to `_push` is a word: non-empty and free of whitespace. */
  lemma {:induction false} MergeWordsAreWords(strings: seq<string>)
    ensures forall w :: w in MergeWords(strings) ==> IsWord(w)
    decreases |strings|
  {
    if strings != [] {
      MergeWordsAreWords(strings[..|strings| - 1]);
    }
  }
}
